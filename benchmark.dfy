/**
 * Lookup tables of utils/utils.py that steer the benchmark queries: the
 * percentile-bucket resolver `map_percentile_col` and `return_sector_type`.
 */
module Benchmark {
  import opened Wrappers
  import opened Text

  /** `percentile_dict`: UI label -> benchmark column of the percentile bucket. */
  const PercentileDict: map<string, string> := map[
    "10th" := "percentile_avg_0_to_10",
    "20th" := "percentile_avg_10_to_20",
    "30th" := "percentile_avg_20_to_30",
    "40th" := "percentile_avg_30_to_40",
    "50th" := "percentile_avg_40_to_50",
    "60th" := "percentile_avg_50_to_60",
    "70th" := "percentile_avg_60_to_70",
    "80th" := "percentile_avg_70_to_80",
    "90th" := "percentile_avg_80_to_90",
    "100th" := "percentile_avg_90_to_100"
  ]

  /** `map_percentile_col(selected)`; a label outside the table raises KeyError, here None. */
  function MapPercentileCol(selected: string): (r: Option<string>)
    ensures r.Some? <==> selected in PercentileDict
  {
    if selected in PercentileDict then Some(PercentileDict[selected]) else None
  }

  /** The UI label of the bucket ending at percentile p: "{p}th". */
  function PercentileLabel(p: nat): string {
    NatToString(p) + "th"
  }

  /** The benchmark column averaging percentiles lo to hi. */
  function BucketColumn(lo: nat, hi: nat): string {
    "percentile_avg_" + NatToString(lo) + "_to_" + NatToString(hi)
  }

  lemma TensRendered(n: nat)
    requires 1 <= n <= 10
    ensures NatToString(10 * n) == (if n == 10 then "100" else [DigitChar(n), '0'])
    ensures NatToString(10 * (n - 1)) == (if n == 1 then "0" else [DigitChar(n - 1), '0'])
  {
    if n == 10 {
      assert NatToString(100) == NatToString(10) + [DigitChar(0)];
      assert NatToString(10) == NatToString(1) + [DigitChar(0)];
    }
  }

  /** "Nth" resolves to the bucket from N-10 to N, for each of N = 10, 20, …, 100. */
  lemma {:induction false} PercentileColFormula(n: nat)
    requires 1 <= n <= 10
    ensures MapPercentileCol(PercentileLabel(10 * n)) == Some(BucketColumn(10 * (n - 1), 10 * n))
  {
    if n <= 2 {
      PercentileCols1To2(n);
    } else if n <= 4 {
      PercentileCols3To4(n);
    } else if n <= 6 {
      PercentileCols5To6(n);
    } else if n <= 8 {
      PercentileCols7To8(n);
    } else {
      PercentileCols9To10(n);
    }
  }

  lemma PercentileCols1To2(n: nat)
    requires 1 <= n <= 2
    ensures MapPercentileCol(PercentileLabel(10 * n)) == Some(BucketColumn(10 * (n - 1), 10 * n))
  {
    TensRendered(n);
    if n == 1 {
      assert PercentileLabel(10) == "10th";
      assert BucketColumn(0, 10) == "percentile_avg_0_to_10";
    } else {
      assert PercentileLabel(20) == "20th";
      assert BucketColumn(10, 20) == "percentile_avg_10_to_20";
    }
  }

  lemma PercentileCols3To4(n: nat)
    requires 3 <= n <= 4
    ensures MapPercentileCol(PercentileLabel(10 * n)) == Some(BucketColumn(10 * (n - 1), 10 * n))
  {
    TensRendered(n);
    if n == 3 {
      assert PercentileLabel(30) == "30th";
      assert BucketColumn(20, 30) == "percentile_avg_20_to_30";
    } else {
      assert PercentileLabel(40) == "40th";
      assert BucketColumn(30, 40) == "percentile_avg_30_to_40";
    }
  }

  lemma PercentileCols5To6(n: nat)
    requires 5 <= n <= 6
    ensures MapPercentileCol(PercentileLabel(10 * n)) == Some(BucketColumn(10 * (n - 1), 10 * n))
  {
    TensRendered(n);
    if n == 5 {
      assert PercentileLabel(50) == "50th";
      assert BucketColumn(40, 50) == "percentile_avg_40_to_50";
    } else {
      assert PercentileLabel(60) == "60th";
      assert BucketColumn(50, 60) == "percentile_avg_50_to_60";
    }
  }

  lemma PercentileCols7To8(n: nat)
    requires 7 <= n <= 8
    ensures MapPercentileCol(PercentileLabel(10 * n)) == Some(BucketColumn(10 * (n - 1), 10 * n))
  {
    TensRendered(n);
    if n == 7 {
      assert PercentileLabel(70) == "70th";
      assert BucketColumn(60, 70) == "percentile_avg_60_to_70";
    } else {
      assert PercentileLabel(80) == "80th";
      assert BucketColumn(70, 80) == "percentile_avg_70_to_80";
    }
  }

  lemma PercentileCols9To10(n: nat)
    requires 9 <= n <= 10
    ensures MapPercentileCol(PercentileLabel(10 * n)) == Some(BucketColumn(10 * (n - 1), 10 * n))
  {
    TensRendered(n);
    if n == 9 {
      assert PercentileLabel(90) == "90th";
      assert BucketColumn(80, 90) == "percentile_avg_80_to_90";
    } else {
      assert PercentileLabel(100) == "100th";
      assert BucketColumn(90, 100) == "percentile_avg_90_to_100";
    }
  }

  /** The resolver is defined on exactly the ten labels 10th, 20th, …, 100th. */
  lemma {:induction false} PercentileColDomain(selected: string)
    ensures MapPercentileCol(selected).Some? <==>
      exists n :: 1 <= n <= 10 && selected == PercentileLabel(10 * n)
  {
    if selected in PercentileDict {
      var n := if selected == "100th" then 10
        else (selected[0] as int - '0' as int);
      assert 1 <= n <= 10 && selected == PercentileLabel(10 * n) by {
        TensRendered(n);
      }
    }
    forall n | 1 <= n <= 10 && selected == PercentileLabel(10 * n)
      ensures selected in PercentileDict
    {
      PercentileColFormula(n);
    }
  }

  /** Different labels resolve to different columns. */
  lemma {:induction false} PercentileColInjective(a: string, b: string)
    requires MapPercentileCol(a).Some? && MapPercentileCol(a) == MapPercentileCol(b)
    ensures a == b
  {
    var c := PercentileDict[a];
    assert c[15] == PercentileDict[b][15];
    assert |c| == |PercentileDict[b]|;
  }

  /** The two kinds of sector data. */
  datatype SectorType = Asset | Raster

  const AssetSectors: seq<string> :=
    ["fossil-fuel-operations", "manufacturing", "mineral-extraction", "power", "waste"]
  const RasterSectors: seq<string> :=
    ["agriculture", "buildings", "fluorinated-gases", "forestry-and-land-use", "transportation"]

  /**
   * `return_sector_type(sector)`. For a sector in neither list the source
   * returns an unassigned local and raises; that is None here.
   */
  function ReturnSectorType(sector: string): (r: Option<SectorType>)
    ensures r == Some(Asset) <==> sector in AssetSectors
    ensures r == Some(Raster) <==> sector in RasterSectors
    ensures r == None <==> sector !in AssetSectors && sector !in RasterSectors
  {
    if sector in AssetSectors then Some(Asset)
    else if sector in RasterSectors then Some(Raster)
    else None
  }

  /** No sector is on both lists, so the first test does not shadow the second. */
  lemma SectorListsDisjoint()
    ensures forall s :: s in AssetSectors ==> s !in RasterSectors
  {
    forall s | s in AssetSectors ensures s !in RasterSectors {
      assert s[0] in {'f', 'm', 'p', 'w'};
      if s[0] == 'f' {
        assert s == AssetSectors[0];
        assert s != RasterSectors[2] && s != RasterSectors[3];
      }
    }
  }
}
