/**
 * `build_sector_reduction_sql` (utils/queries.py): the per-sector emissions and
 * reduction potential behind the stacked bar chart, in its three forms: the
 * strategy reduction at the asset, the strategy reduction netted against
 * induced emissions, and the percentile benchmark. The rows passed in are
 * those the caller's join and WHERE fragments keep.
 */
module SectorReduction {
  import opened Wrappers
  import opened Seqs
  import opened Sql
  import opened Assets
  import opened BenchmarkReduction

  /** A row of the strategy-at-asset and benchmark forms. */
  datatype SectorTotal = SectorTotal(sector: string, emissions: Option<real>, reduction: Option<real>)

  function InSector(s: string): AssetRow -> bool {
    (r: AssetRow) => r.sector == s
  }

  /** The rows of sector s, in order. */
  function SectorRows(rows: seq<AssetRow>, s: string): seq<AssetRow> {
    Filter(rows, InSector(s))
  }

  // ---------------------------------------------------------------------
  // Strategy reduction at the asset.

  /** The inner GROUP BY asset_id, sector, emissions_reduced_at_asset. */
  datatype AtAssetKey = AtAssetKey(assetId: nat, sector: string, reduction: Option<real>)

  function AtAssetKeyOf(r: AssetRow): AtAssetKey { AtAssetKey(r.assetId, r.sector, r.reducedAtAsset) }
  function AtAssetReduction(k: AtAssetKey): Option<real> { k.reduction }

  /** One sector: the sum of the groups' emission sums and the sum of the groups' reductions. */
  function AtAssetSector(rows: seq<AssetRow>, s: string): SectorTotal {
    var rs := SectorRows(rows, s);
    var ks := Keys(rs, AtAssetKeyOf);
    SectorTotal(s, SqlSum(ks, GroupSum(rs, AtAssetKeyOf, Emissions)), SqlSum(ks, AtAssetReduction))
  }

  function AtAssetRows(ss: seq<string>, rows: seq<AssetRow>): (out: seq<SectorTotal>)
    ensures |out| == |ss|
    ensures forall i :: 0 <= i < |ss| ==> out[i] == AtAssetSector(rows, ss[i])
  {
    if ss == [] then [] else [AtAssetSector(rows, ss[0])] + AtAssetRows(ss[1..], rows)
  }

  /** queries.py:55-89: one row per sector. */
  function AtAssetBranch(rows: seq<AssetRow>): seq<SectorTotal> {
    AtAssetRows(Keys(rows, SectorOf), rows)
  }

  /** A sector's emissions are the SUM over its rows: the inner grouping neither drops nor repeats any. */
  lemma AtAssetEmissions(rows: seq<AssetRow>, s: string)
    ensures AtAssetSector(rows, s).emissions == SqlSum(SectorRows(rows, s), Emissions)
  {
    var rs := SectorRows(rows, s);
    SqlSumOfGroupSums(Keys(rs, AtAssetKeyOf), rs, AtAssetKeyOf, Emissions);
  }

  /**
   * A sector's reduction counts each (asset, sector, reduction) value once:
   * another row repeating the asset and its reduction value (another month,
   * say) leaves it unchanged.
   */
  lemma AtAssetReductionOncePerValue(rows: seq<AssetRow>, r: AssetRow, s: string)
    requires exists r0 :: r0 in rows && AtAssetKeyOf(r0) == AtAssetKeyOf(r)
    ensures AtAssetSector(rows + [r], s).reduction == AtAssetSector(rows, s).reduction
  {
    var r0 :| r0 in rows && AtAssetKeyOf(r0) == AtAssetKeyOf(r);
    var rs := SectorRows(rows, s);
    FilterAppend(rows, [r], InSector(s));
    var extra := Filter([r], InSector(s));
    MapAppend(rs, extra, AtAssetKeyOf);
    assert extra != [] ==> r0 in rs by {
      if extra != [] {
        assert extra[0] in extra;
      }
    }
    ExtraKeysPresent(rs, extra, r0);
    DistinctAppendPresent(Map(rs, AtAssetKeyOf), Map(extra, AtAssetKeyOf));
  }

  lemma ExtraKeysPresent(rs: seq<AssetRow>, extra: seq<AssetRow>, r0: AssetRow)
    requires extra != [] ==> r0 in rs
    requires forall x :: x in extra ==> AtAssetKeyOf(x) == AtAssetKeyOf(r0)
    ensures forall x :: x in Map(extra, AtAssetKeyOf) ==> x in Map(rs, AtAssetKeyOf)
  {
    forall x | x in Map(extra, AtAssetKeyOf) ensures x in Map(rs, AtAssetKeyOf) {
      var j :| 0 <= j < |extra| && Map(extra, AtAssetKeyOf)[j] == x;
      assert extra[j] in extra;
      var i :| 0 <= i < |rs| && rs[i] == r0;
      assert Map(rs, AtAssetKeyOf)[i] == x;
    }
  }

  // ---------------------------------------------------------------------
  // Netting against induced emissions.

  /** A row of the DISTINCT in one induced slot's subquery. */
  datatype InducedTuple = InducedTuple(assetId: nat, sector: Option<string>, subsector: Option<string>, emissions: Option<real>)

  function TupleSector(t: InducedTuple): Option<string> { t.sector }
  function TupleEmissions(t: InducedTuple): Option<real> { t.emissions }

  function HasSubsector(sub: string): AssetRow -> bool {
    (r: AssetRow) => r.subsector == sub
  }

  /**
   * The sectors `sector_mapping` (the distinct sector/subsector pairs of the
   * whole table) gives the subsector; none for a NULL subsector.
   */
  function MappedSectors(table: seq<AssetRow>, sub: Option<string>): (ms: seq<string>)
    ensures NoDup(ms)
  {
    if sub.None? then [] else Distinct(Map(Filter(table, HasSubsector(sub.value)), SectorOf))
  }

  /** The mapped sectors are exactly the sectors of the table's rows with that subsector. */
  lemma MappedSectorsMembers(table: seq<AssetRow>, sub: Option<string>)
    ensures forall m :: m in MappedSectors(table, sub) ==> exists r :: r in table && Some(r.subsector) == sub && r.sector == m
    ensures forall r :: r in table && Some(r.subsector) == sub ==> r.sector in MappedSectors(table, sub)
  {
    if sub.Some? {
      var matching := Filter(table, HasSubsector(sub.value));
      var m := Map(matching, SectorOf);
      forall x | x in MappedSectors(table, sub)
        ensures exists r :: r in table && Some(r.subsector) == sub && r.sector == x
      {
        var i :| 0 <= i < |m| && m[i] == x;
        assert matching[i] in matching;
      }
      forall r | r in table && Some(r.subsector) == sub ensures r.sector in MappedSectors(table, sub) {
        assert HasSubsector(sub.value)(r);
        var i :| 0 <= i < |matching| && matching[i] == r;
        assert m[i] == r.sector;
      }
    }
  }

  function Tagged(r: AssetRow, slot: InducedSlot, ms: seq<string>): (ts: seq<InducedTuple>)
    ensures |ts| == |ms|
    ensures forall i :: 0 <= i < |ms| ==> ts[i] == InducedTuple(r.assetId, Some(ms[i]), slot.subsector, slot.emissions)
  {
    if ms == [] then [] else [InducedTuple(r.assetId, Some(ms[0]), slot.subsector, slot.emissions)] + Tagged(r, slot, ms[1..])
  }

  /** One row of slot k through the LEFT JOIN: once per mapped sector, or once with a NULL sector. */
  function TuplesOf(r: AssetRow, table: seq<AssetRow>, k: nat): seq<InducedTuple>
    requires 1 <= k <= 3
  {
    var slot := Slot(r, k);
    var ms := MappedSectors(table, slot.subsector);
    if ms == [] then [InducedTuple(r.assetId, None, slot.subsector, slot.emissions)] else Tagged(r, slot, ms)
  }

  function SlotTuples(rows: seq<AssetRow>, table: seq<AssetRow>, k: nat): seq<InducedTuple>
    requires 1 <= k <= 3
  {
    if rows == [] then [] else TuplesOf(rows[0], table, k) + SlotTuples(rows[1..], table, k)
  }

  /** A sector with a value: a row of a `group by sector` subquery. */
  datatype SectorValue = SectorValue(sector: Option<string>, value: Option<real>)

  function SvSector(v: SectorValue): Option<string> { v.sector }
  function SvValue(v: SectorValue): Option<real> { v.value }

  /** One row per key, each with g of its key. */
  function Keyed(ks: seq<Option<string>>, g: Option<string> -> Option<real>): (out: seq<SectorValue>)
    ensures |out| == |ks|
    ensures forall i :: 0 <= i < |ks| ==> out[i] == SectorValue(ks[i], g(ks[i]))
  {
    if ks == [] then [] else [SectorValue(ks[0], g(ks[0]))] + Keyed(ks[1..], g)
  }

  /** The DISTINCT rows of slot k. */
  function SlotDistinct(rows: seq<AssetRow>, table: seq<AssetRow>, k: nat): seq<InducedTuple>
    requires 1 <= k <= 3
  {
    Distinct(SlotTuples(rows, table, k))
  }

  /** Slot k's sum for sector s (NULL when no distinct row has that sector). */
  function SlotTotal(rows: seq<AssetRow>, table: seq<AssetRow>, k: nat, s: Option<string>): Option<real>
    requires 1 <= k <= 3
  {
    GroupSum(SlotDistinct(rows, table, k), TupleSector, TupleEmissions)(s)
  }

  /** Slot k's subquery: SELECT DISTINCT …, then SUM per sector. */
  function SlotSums(rows: seq<AssetRow>, table: seq<AssetRow>, k: nat): seq<SectorValue>
    requires 1 <= k <= 3
  {
    var d := SlotDistinct(rows, table, k);
    Keyed(Keys(d, TupleSector), GroupSum(d, TupleSector, TupleEmissions))
  }

  /** The three slots' sums, UNION ALL. */
  function UnionAll(rows: seq<AssetRow>, table: seq<AssetRow>): seq<SectorValue> {
    SlotSums(rows, table, 1) + SlotSums(rows, table, 2) + SlotSums(rows, table, 3)
  }

  /** The `induced` CTE's value for sector s: the SUM of the union's values for s. */
  function InducedTotal(rows: seq<AssetRow>, table: seq<AssetRow>, s: Option<string>): Option<real> {
    GroupSum(UnionAll(rows, table), SvSector, SvValue)(s)
  }

  /** The sectors the `induced` CTE has a row for. */
  function InducedSectors(rows: seq<AssetRow>, table: seq<AssetRow>): seq<Option<string>> {
    Keys(UnionAll(rows, table), SvSector)
  }

  lemma {:induction false} GroupOfKeyed(ks: seq<Option<string>>, g: Option<string> -> Option<real>, s: Option<string>)
    requires NoDup(ks)
    ensures Group(Keyed(ks, g), SvSector, s) == if s in ks then [SectorValue(s, g(s))] else []
  {
    if ks != [] {
      assert NoDup(ks[1..]) by {
        forall i, j | 0 <= i < j < |ks[1..]| ensures ks[1..][i] != ks[1..][j] {
          assert ks[1..][i] == ks[i + 1] && ks[1..][j] == ks[j + 1];
        }
      }
      GroupOfKeyed(ks[1..], g, s);
      assert Keyed(ks, g)[1..] == Keyed(ks[1..], g);
      assert s in ks <==> s == ks[0] || s in ks[1..] by {
        assert ks == [ks[0]] + ks[1..];
      }
      if s == ks[0] {
        assert s !in ks[1..];
      }
    }
  }

  /** Grouping the per-sector sums of d by sector again finds at most the one row of s. */
  lemma KeyedGroupSum(d: seq<InducedTuple>, s: Option<string>)
    ensures var g := Group(Keyed(Keys(d, TupleSector), GroupSum(d, TupleSector, TupleEmissions)), SvSector, s);
      var t := GroupSum(d, TupleSector, TupleEmissions)(s);
      SumPresent(g, SvValue) == OrZero(t) && CountPresent(g, SvValue) == (if t.Some? then 1 else 0)
  {
    var ks := Keys(d, TupleSector);
    var sums := GroupSum(d, TupleSector, TupleEmissions);
    if s !in ks {
      GroupOfMissingKey(d, TupleSector, s);
    }
    KeyedTotal(ks, sums, s);
  }

  /** The same, for any distinct keys whose value is NULL off the keys. */
  lemma KeyedTotal(ks: seq<Option<string>>, sums: Option<string> -> Option<real>, s: Option<string>)
    requires NoDup(ks)
    requires s !in ks ==> sums(s).None?
    ensures var g := Group(Keyed(ks, sums), SvSector, s);
      SumPresent(g, SvValue) == OrZero(sums(s)) && CountPresent(g, SvValue) == (if sums(s).Some? then 1 else 0)
  {
    GroupOfKeyed(ks, sums, s);
    var g := Group(Keyed(ks, sums), SvSector, s);
    if s in ks {
      assert g == [SectorValue(s, sums(s))];
      assert g[1..] == [];
    } else {
      assert g == [];
    }
  }

  lemma SlotGroup(rows: seq<AssetRow>, table: seq<AssetRow>, k: nat, s: Option<string>)
    requires 1 <= k <= 3
    ensures SumPresent(Group(SlotSums(rows, table, k), SvSector, s), SvValue) == OrZero(SlotTotal(rows, table, k, s))
    ensures CountPresent(Group(SlotSums(rows, table, k), SvSector, s), SvValue) == (if SlotTotal(rows, table, k, s).Some? then 1 else 0)
  {
    KeyedGroupSum(SlotDistinct(rows, table, k), s);
  }

  /** SQL SUM of three values: NULL when all are NULL, else the sum of those present. */
  function SumOfThree(a: Option<real>, b: Option<real>, c: Option<real>): (r: Option<real>)
    ensures r.None? <==> a.None? && b.None? && c.None?
  {
    if a.None? && b.None? && c.None? then None else Some(OrZero(a) + OrZero(b) + OrZero(c))
  }

  /** Summing three UNION ALL parts for s, where each part has its one value for s or nothing. */
  lemma SumOfThreeParts(u1: seq<SectorValue>, u2: seq<SectorValue>, u3: seq<SectorValue>, s: Option<string>,
                        a: Option<real>, b: Option<real>, c: Option<real>)
    requires SumPresent(Group(u1, SvSector, s), SvValue) == OrZero(a) && CountPresent(Group(u1, SvSector, s), SvValue) == (if a.Some? then 1 else 0)
    requires SumPresent(Group(u2, SvSector, s), SvValue) == OrZero(b) && CountPresent(Group(u2, SvSector, s), SvValue) == (if b.Some? then 1 else 0)
    requires SumPresent(Group(u3, SvSector, s), SvValue) == OrZero(c) && CountPresent(Group(u3, SvSector, s), SvValue) == (if c.Some? then 1 else 0)
    ensures GroupSum(u1 + u2 + u3, SvSector, SvValue)(s) == SumOfThree(a, b, c)
  {
    GroupAppend(u1 + u2, u3, SvSector, s);
    GroupAppend(u1, u2, SvSector, s);
    SumOfThreeGroups(Group(u1, SvSector, s), Group(u2, SvSector, s), Group(u3, SvSector, s), a, b, c);
  }

  lemma SumOfThreeGroups(g1: seq<SectorValue>, g2: seq<SectorValue>, g3: seq<SectorValue>,
                         a: Option<real>, b: Option<real>, c: Option<real>)
    requires SumPresent(g1, SvValue) == OrZero(a) && CountPresent(g1, SvValue) == (if a.Some? then 1 else 0)
    requires SumPresent(g2, SvValue) == OrZero(b) && CountPresent(g2, SvValue) == (if b.Some? then 1 else 0)
    requires SumPresent(g3, SvValue) == OrZero(c) && CountPresent(g3, SvValue) == (if c.Some? then 1 else 0)
    ensures SqlSum(g1 + g2 + g3, SvValue) == SumOfThree(a, b, c)
  {
    PresentAppend(g1 + g2, g3, SvValue);
    PresentAppend(g1, g2, SvValue);
  }

  /**
   * The induced emissions received by sector s add the three slots'
   * separate sums of DISTINCT rows (NULL when no slot has any value for s).
   */
  lemma InducedIsSumOfSlots(rows: seq<AssetRow>, table: seq<AssetRow>, s: Option<string>)
    ensures InducedTotal(rows, table, s) == SumOfThree(SlotTotal(rows, table, 1, s), SlotTotal(rows, table, 2, s), SlotTotal(rows, table, 3, s))
  {
    var u1 := SlotSums(rows, table, 1);
    var u2 := SlotSums(rows, table, 2);
    var u3 := SlotSums(rows, table, 3);
    SlotGroup(rows, table, 1, s);
    SlotGroup(rows, table, 2, s);
    SlotGroup(rows, table, 3, s);
    SumOfThreeParts(u1, u2, u3, s, SlotTotal(rows, table, 1, s), SlotTotal(rows, table, 2, s), SlotTotal(rows, table, 3, s));
  }

  lemma {:induction false} SlotTuplesAppend(a: seq<AssetRow>, b: seq<AssetRow>, table: seq<AssetRow>, k: nat)
    requires 1 <= k <= 3
    ensures SlotTuples(a + b, table, k) == SlotTuples(a, table, k) + SlotTuples(b, table, k)
  {
    if a != [] {
      assert (a + b)[1..] == a[1..] + b;
      SlotTuplesAppend(a[1..], b, table, k);
    } else {
      assert a + b == b;
    }
  }

  lemma {:induction false} TuplesOfInSlotTuples(rows: seq<AssetRow>, table: seq<AssetRow>, k: nat, r: AssetRow)
    requires 1 <= k <= 3
    requires r in rows
    ensures forall t :: t in TuplesOf(r, table, k) ==> t in SlotTuples(rows, table, k)
  {
    if rows[0] != r {
      TuplesOfInSlotTuples(rows[1..], table, k, r);
    }
  }

  /** Two rows with the same asset and induced slots; other columns may differ. */
  predicate SameInducedSlots(r0: AssetRow, r: AssetRow) {
    r0.assetId == r.assetId && r0.induced1 == r.induced1 && r0.induced2 == r.induced2 && r0.induced3 == r.induced3
  }

  lemma SlotIgnoresRepeatedRow(rows: seq<AssetRow>, table: seq<AssetRow>, r0: AssetRow, r: AssetRow, k: nat)
    requires 1 <= k <= 3
    requires r0 in rows && SameInducedSlots(r0, r)
    ensures SlotDistinct(rows + [r], table, k) == SlotDistinct(rows, table, k)
  {
    var before := SlotTuples(rows, table, k);
    var extra := TuplesOf(r, table, k);
    SlotTuplesAppend(rows, [r], table, k);
    SlotTuplesSingle(r, table, k);
    SameSlotsSameTuples(r0, r, table, k);
    TuplesOfInSlotTuples(rows, table, k, r0);
    DistinctAppendPresent(before, extra);
  }

  lemma SlotTuplesSingle(r: AssetRow, table: seq<AssetRow>, k: nat)
    requires 1 <= k <= 3
    ensures SlotTuples([r], table, k) == TuplesOf(r, table, k)
  {
    assert [r][1..] == [];
  }

  lemma SameSlotsSameTuples(r0: AssetRow, r: AssetRow, table: seq<AssetRow>, k: nat)
    requires 1 <= k <= 3 && SameInducedSlots(r0, r)
    ensures TuplesOf(r, table, k) == TuplesOf(r0, table, k)
  {
    assert Slot(r, k) == Slot(r0, k);
  }

  /**
   * Because each slot is de-duplicated before it is summed, a further row
   * repeating an asset's induced slots changes none of the induced totals.
   */
  lemma InducedIgnoresRepeatedRows(rows: seq<AssetRow>, table: seq<AssetRow>, r: AssetRow)
    requires exists r0 :: r0 in rows && SameInducedSlots(r0, r)
    ensures UnionAll(rows + [r], table) == UnionAll(rows, table)
    ensures forall s :: InducedTotal(rows + [r], table, s) == InducedTotal(rows, table, s)
  {
    var r0 :| r0 in rows && SameInducedSlots(r0, r);
    SlotIgnoresRepeatedRow(rows, table, r0, r, 1);
    SlotIgnoresRepeatedRow(rows, table, r0, r, 2);
    SlotIgnoresRepeatedRow(rows, table, r0, r, 3);
  }

  /** The inner GROUP BY asset_id, sector, subsector, emissions_reduced_at_asset of `asset_reductions`. */
  datatype ArKey = ArKey(assetId: nat, sector: string, subsector: string, reduction: Option<real>)

  function ArKeyOf(r: AssetRow): ArKey { ArKey(r.assetId, r.sector, r.subsector, r.reducedAtAsset) }
  function ArKeyReduction(k: ArKey): Option<real> { k.reduction }

  /** `asset_reductions.emissions_quantity` of sector s. */
  function ArEmissions(rows: seq<AssetRow>, s: string): Option<real> {
    var rs := SectorRows(rows, s);
    SqlSum(Keys(rs, ArKeyOf), GroupSum(rs, ArKeyOf, Emissions))
  }

  /** `asset_reductions.emissions_reduced_at_asset` of sector s: one value per distinct group. */
  function ArReduction(rows: seq<AssetRow>, s: string): Option<real> {
    SqlSum(Keys(SectorRows(rows, s), ArKeyOf), ArKeyReduction)
  }

  lemma ArEmissionsIsSectorSum(rows: seq<AssetRow>, s: string)
    ensures ArEmissions(rows, s) == SqlSum(SectorRows(rows, s), Emissions)
  {
    var rs := SectorRows(rows, s);
    SqlSumOfGroupSums(Keys(rs, ArKeyOf), rs, ArKeyOf, Emissions);
  }

  /** The induced emissions beyond the asset reductions, never negative. */
  function InducedExcess(ar: Option<real>, ind: Option<real>): (x: real)
    ensures x >= 0.0
    ensures x > 0.0 <==> OrZero(ind) > OrZero(ar)
    ensures x >= OrZero(ind) - OrZero(ar)
  {
    if OrZero(ind) > OrZero(ar) then OrZero(ind) - OrZero(ar) else 0.0
  }

  /** The asset reductions left after the induced emissions, never negative. */
  function NetReduction(ar: Option<real>, ind: Option<real>): (x: real)
    ensures x >= 0.0
    ensures x > 0.0 <==> OrZero(ar) > OrZero(ind)
    ensures x >= OrZero(ar) - OrZero(ind)
  {
    if OrZero(ind) < OrZero(ar) then OrZero(ar) - OrZero(ind) else 0.0
  }

  /** At most one of the two is non-zero, and together they give the signed difference. */
  lemma NettingSplit(ar: Option<real>, ind: Option<real>)
    ensures NetReduction(ar, ind) == 0.0 || InducedExcess(ar, ind) == 0.0
    ensures NetReduction(ar, ind) - InducedExcess(ar, ind) == OrZero(ar) - OrZero(ind)
  {
  }

  /** The final SELECT's row. */
  datatype NetRow = NetRow(sector: Option<string>, emissions: Option<real>, induced: Option<real>,
                           reducedAtAsset: Option<real>, inducedExcess: real, reductionPotential: real)

  function NetSector(n: NetRow): Option<string> { n.sector }

  function Netted(sector: Option<string>, emissions: Option<real>, induced: Option<real>, reduced: Option<real>): NetRow {
    NetRow(sector, emissions, induced, reduced, InducedExcess(reduced, induced), NetReduction(reduced, induced))
  }

  /** The joined rows of the `asset_reductions` sectors. */
  function ArPart(ss: seq<string>, rows: seq<AssetRow>, table: seq<AssetRow>): (out: seq<NetRow>)
    ensures |out| == |ss|
    ensures forall i :: 0 <= i < |ss| ==>
      out[i] == Netted(Some(ss[i]), ArEmissions(rows, ss[i]), InducedTotal(rows, table, Some(ss[i])), ArReduction(rows, ss[i]))
  {
    Map(ss, (s: string) => Netted(Some(s), ArEmissions(rows, s), InducedTotal(rows, table, Some(s)), ArReduction(rows, s)))
  }

  /** The rows of induced sectors with no asset-reductions row. */
  function InducedPart(ks: seq<Option<string>>, rows: seq<AssetRow>, table: seq<AssetRow>): (out: seq<NetRow>)
    ensures |out| == |ks|
    ensures forall i :: 0 <= i < |ks| ==> out[i] == Netted(ks[i], None, InducedTotal(rows, table, ks[i]), None)
  {
    Map(ks, (k: Option<string>) => Netted(k, None, InducedTotal(rows, table, k), None))
  }

  /** An induced sector the join leaves unmatched: NULL, or a sector without rows. */
  function Unmatched(ss: seq<string>): Option<string> -> bool {
    (k: Option<string>) => !(k.Some? && k.value in ss)
  }

  /** queries.py:94-215: `asset_reductions FULL OUTER JOIN induced ON induced.sector = ar.sector`. */
  function NettingBranch(rows: seq<AssetRow>, table: seq<AssetRow>): seq<NetRow> {
    var ss := Keys(rows, SectorOf);
    ArPart(ss, rows, table) + InducedPart(Filter(InducedSectors(rows, table), Unmatched(ss)), rows, table)
  }

  function SectorsOf(out: seq<NetRow>): (r: seq<Option<string>>)
    ensures |r| == |out|
    ensures forall i :: 0 <= i < |out| ==> r[i] == out[i].sector
  {
    Map(out, NetSector)
  }

  /** Every sector as a join key. */
  function Somes(ss: seq<string>): (r: seq<Option<string>>)
    ensures |r| == |ss|
    ensures forall i :: 0 <= i < |ss| ==> r[i] == Some(ss[i])
  {
    if ss == [] then [] else [Some(ss[0])] + Somes(ss[1..])
  }

  /** The join's keys: the sectors with asset rows, then the unmatched induced sectors; none twice. */
  lemma JoinKeys(ss: seq<string>, induced: seq<Option<string>>)
    requires NoDup(ss) && NoDup(induced)
    ensures NoDup(Somes(ss) + Filter(induced, Unmatched(ss)))
    ensures forall k :: k in induced ==> k in Somes(ss) + Filter(induced, Unmatched(ss))
  {
    var ks := Filter(induced, Unmatched(ss));
    NoDupFilter(induced, Unmatched(ss));
    forall x | x in Somes(ss) ensures x !in ks {
      var i :| 0 <= i < |ss| && Somes(ss)[i] == x;
    }
    NoDupAppend(Somes(ss), ks);
    forall k | k in induced ensures k in Somes(ss) + ks {
      if k.Some? && k.value in ss {
        var i :| 0 <= i < |ss| && ss[i] == k.value;
        assert (Somes(ss) + ks)[i] == k;
      } else {
        assert Unmatched(ss)(k);
        assert k in ks;
      }
    }
  }

  lemma NettingSectors(rows: seq<AssetRow>, table: seq<AssetRow>)
    ensures SectorsOf(NettingBranch(rows, table))
         == Somes(Keys(rows, SectorOf)) + Filter(InducedSectors(rows, table), Unmatched(Keys(rows, SectorOf)))
  {
    var ss := Keys(rows, SectorOf);
    var ks := Filter(InducedSectors(rows, table), Unmatched(ss));
    var a := ArPart(ss, rows, table);
    var b := InducedPart(ks, rows, table);
    MapAppend(a, b, NetSector);
    ArPartSectors(ss, rows, table);
    InducedPartSectors(ks, rows, table);
  }

  lemma ArPartSectors(ss: seq<string>, rows: seq<AssetRow>, table: seq<AssetRow>)
    ensures SectorsOf(ArPart(ss, rows, table)) == Somes(ss)
  {
    var a := ArPart(ss, rows, table);
    forall i | 0 <= i < |ss| ensures SectorsOf(a)[i] == Somes(ss)[i] {
      assert a[i].sector == Some(ss[i]);
    }
  }

  lemma InducedPartSectors(ks: seq<Option<string>>, rows: seq<AssetRow>, table: seq<AssetRow>)
    ensures SectorsOf(InducedPart(ks, rows, table)) == ks
  {
    var b := InducedPart(ks, rows, table);
    assert forall i :: 0 <= i < |ks| ==> SectorsOf(b)[i] == ks[i];
  }

  /** JoinKeys, stated for the sectors of some rows. */
  lemma JoinCover(rows: seq<AssetRow>, ss: seq<string>, induced: seq<Option<string>>, keys: seq<Option<string>>)
    requires NoDup(ss) && NoDup(induced)
    requires keys == Somes(ss) + Filter(induced, Unmatched(ss))
    requires forall i :: 0 <= i < |rows| ==> rows[i].sector in ss
    requires forall x :: x in ss ==> exists i :: 0 <= i < |rows| && rows[i].sector == x
    ensures NoDup(keys)
    ensures forall i :: 0 <= i < |rows| ==> Some(rows[i].sector) in keys
    ensures forall k :: k in induced ==> k in keys
    ensures forall k :: k in keys ==> (exists i :: 0 <= i < |rows| && k == Some(rows[i].sector)) || k in induced
  {
    JoinKeys(ss, induced);
    forall i | 0 <= i < |rows| ensures Some(rows[i].sector) in keys {
      var j :| 0 <= j < |ss| && ss[j] == rows[i].sector;
      assert keys[j] == Some(rows[i].sector);
    }
    forall k | k in keys
      ensures (exists i :: 0 <= i < |rows| && k == Some(rows[i].sector)) || k in induced
    {
      var j :| 0 <= j < |keys| && keys[j] == k;
      if j < |ss| {
        assert k == Some(ss[j]);
        assert ss[j] in ss;
      } else {
        assert k in Filter(induced, Unmatched(ss));
      }
    }
  }

  /**
   * The full outer join yields one row per sector that has asset rows or
   * induced emissions (a NULL induced sector included), and no sector twice.
   */
  lemma NettingJoin(rows: seq<AssetRow>, table: seq<AssetRow>)
    ensures NoDup(SectorsOf(NettingBranch(rows, table)))
    ensures forall i :: 0 <= i < |rows| ==> Some(rows[i].sector) in SectorsOf(NettingBranch(rows, table))
    ensures forall k :: k in InducedSectors(rows, table) ==> k in SectorsOf(NettingBranch(rows, table))
    ensures forall k :: k in SectorsOf(NettingBranch(rows, table)) ==>
      (exists i :: 0 <= i < |rows| && k == Some(rows[i].sector)) || k in InducedSectors(rows, table)
  {
    NettingSectors(rows, table);
    NettingJoinKeys(rows, table, SectorsOf(NettingBranch(rows, table)));
  }

  lemma NettingJoinKeys(rows: seq<AssetRow>, table: seq<AssetRow>, keys: seq<Option<string>>)
    requires keys == Somes(Keys(rows, SectorOf)) + Filter(InducedSectors(rows, table), Unmatched(Keys(rows, SectorOf)))
    ensures NoDup(keys)
    ensures forall i :: 0 <= i < |rows| ==> Some(rows[i].sector) in keys
    ensures forall k :: k in InducedSectors(rows, table) ==> k in keys
    ensures forall k :: k in keys ==> (exists i :: 0 <= i < |rows| && k == Some(rows[i].sector)) || k in InducedSectors(rows, table)
  {
    JoinCover(rows, Keys(rows, SectorOf), InducedSectors(rows, table), keys);
  }

  /** What NettingValues states of one joined row, with ss the sectors that have asset rows. */
  ghost predicate NetRowValues(rows: seq<AssetRow>, table: seq<AssetRow>, ss: seq<string>, n: NetRow) {
    && n.induced == InducedTotal(rows, table, n.sector)
    && n.inducedExcess == InducedExcess(n.reducedAtAsset, n.induced)
    && n.reductionPotential == NetReduction(n.reducedAtAsset, n.induced)
    && (if n.sector.Some? && n.sector.value in ss
        then n.emissions == SqlSum(SectorRows(rows, n.sector.value), Emissions) &&
             n.reducedAtAsset == ArReduction(rows, n.sector.value)
        else n.emissions == None && n.reducedAtAsset == None)
  }

  lemma ArPartValues(ss: seq<string>, rows: seq<AssetRow>, table: seq<AssetRow>, j: nat)
    requires j < |ss|
    ensures NetRowValues(rows, table, ss, ArPart(ss, rows, table)[j])
  {
    ArEmissionsIsSectorSum(rows, ss[j]);
    assert ss[j] in ss;
  }

  lemma InducedPartValues(ss: seq<string>, ks: seq<Option<string>>, rows: seq<AssetRow>, table: seq<AssetRow>, j: nat)
    requires j < |ks| && Unmatched(ss)(ks[j])
    ensures NetRowValues(rows, table, ss, InducedPart(ks, rows, table)[j])
  {
  }

  lemma ConcatValues(rows: seq<AssetRow>, table: seq<AssetRow>, ss: seq<string>, a: seq<NetRow>, b: seq<NetRow>, j: nat)
    requires forall i :: 0 <= i < |a| ==> NetRowValues(rows, table, ss, a[i])
    requires forall i :: 0 <= i < |b| ==> NetRowValues(rows, table, ss, b[i])
    requires j < |a| + |b|
    ensures NetRowValues(rows, table, ss, (a + b)[j])
  {
    ConcatIndex(a, b, j);
  }

  lemma JoinedPartValues(ss: seq<string>, ks: seq<Option<string>>, rows: seq<AssetRow>, table: seq<AssetRow>, j: nat)
    requires forall k :: k in ks ==> Unmatched(ss)(k)
    requires j < |ArPart(ss, rows, table) + InducedPart(ks, rows, table)|
    ensures NetRowValues(rows, table, ss, (ArPart(ss, rows, table) + InducedPart(ks, rows, table))[j])
  {
    var a, b := ArPart(ss, rows, table), InducedPart(ks, rows, table);
    forall i | 0 <= i < |a| ensures NetRowValues(rows, table, ss, a[i]) {
      ArPartValues(ss, rows, table, i);
    }
    forall i | 0 <= i < |b| ensures NetRowValues(rows, table, ss, b[i]) {
      assert ks[i] in ks;
      InducedPartValues(ss, ks, rows, table, i);
    }
    ConcatValues(rows, table, ss, a, b, j);
  }

  /**
   * Every row carries the induced total of its sector, the asset figures of
   * its sector (or NULL when it only has induced emissions), and the netting
   * of the two with missing values taken as 0.
   */
  lemma NettingValues(rows: seq<AssetRow>, table: seq<AssetRow>, j: nat)
    requires j < |NettingBranch(rows, table)|
    ensures NetRowValues(rows, table, Keys(rows, SectorOf), NettingBranch(rows, table)[j])
  {
    var ss := Keys(rows, SectorOf);
    JoinedPartValues(ss, Filter(InducedSectors(rows, table), Unmatched(ss)), rows, table, j);
  }

  // ---------------------------------------------------------------------
  // Percentile benchmark.

  /** The asset-level GROUP BY asset_id, sector, subsector, iso3_country, country_name. */
  datatype BenchKey = BenchKey(assetId: nat, sector: string, subsector: string, iso3: string, countryName: string)

  function BenchKeyOf(j: Joined): BenchKey {
    BenchKey(j.row.assetId, j.row.sector, j.row.subsector, j.row.iso3, j.row.countryName)
  }

  /** One asset: E and its reduction. */
  datatype AssetBenchmark = AssetBenchmark(key: BenchKey, emissions: Option<real>, reduction: real)

  function AssetEmissions(a: AssetBenchmark): Option<real> { a.emissions }
  function AssetReduction(a: AssetBenchmark): Option<real> { Some(a.reduction) }

  function BenchAssets(ks: seq<BenchKey>, joined: seq<Joined>, proportion: real): (out: seq<AssetBenchmark>)
    ensures |out| == |ks|
    ensures forall i :: 0 <= i < |ks| ==>
      var g := Group(joined, BenchKeyOf, ks[i]);
      out[i] == AssetBenchmark(ks[i], GroupEmissions(g), SectorAssetReduction(g, proportion))
  {
    if ks == [] then []
    else
      var g := Group(joined, BenchKeyOf, ks[0]);
      [AssetBenchmark(ks[0], GroupEmissions(g), SectorAssetReduction(g, proportion))] + BenchAssets(ks[1..], joined, proportion)
  }

  /** The `asset_level` subquery. */
  function AssetLevel(rows: seq<AssetRow>, bench: seq<BenchmarkRow>, proportion: real): seq<AssetBenchmark> {
    var joined := LeftJoin(rows, bench);
    BenchAssets(Keys(joined, BenchKeyOf), joined, proportion)
  }

  function AssetInSector(s: string): AssetBenchmark -> bool {
    (a: AssetBenchmark) => a.key.sector == s
  }

  function BenchSector(assets: seq<AssetBenchmark>, s: string): SectorTotal {
    var g := Filter(assets, AssetInSector(s));
    SectorTotal(s, SqlSum(g, AssetEmissions), SqlSum(g, AssetReduction))
  }

  function BenchRows(ss: seq<string>, assets: seq<AssetBenchmark>): (out: seq<SectorTotal>)
    ensures |out| == |ss|
    ensures forall i :: 0 <= i < |ss| ==> out[i] == BenchSector(assets, ss[i])
  {
    if ss == [] then [] else [BenchSector(assets, ss[0])] + BenchRows(ss[1..], assets)
  }

  function AssetSector(a: AssetBenchmark): string { a.key.sector }

  /** queries.py:218-267: per-sector sums over the assets. */
  function BenchmarkBranch(rows: seq<AssetRow>, bench: seq<BenchmarkRow>, proportion: real): seq<SectorTotal> {
    var assets := AssetLevel(rows, bench, proportion);
    BenchRows(Keys(assets, AssetSector), assets)
  }

  /**
   * A sector's benchmark potential is a non-negative sum that is at least
   * the potential of each of its assets.
   */
  lemma BenchmarkSectorBounds(rows: seq<AssetRow>, bench: seq<BenchmarkRow>, proportion: real, s: string, i: nat)
    requires i < |AssetLevel(rows, bench, proportion)|
    requires AssetLevel(rows, bench, proportion)[i].key.sector == s
    ensures var assets := AssetLevel(rows, bench, proportion);
      var t := BenchSector(assets, s);
      t.reduction.Some? && t.reduction.value >= 0.0 && t.reduction.value >= assets[i].reduction
  {
    var assets := AssetLevel(rows, bench, proportion);
    AssetLevelNonNegative(rows, bench, proportion);
    SectorSumBounds(assets, s, i);
  }

  lemma AssetLevelNonNegative(rows: seq<AssetRow>, bench: seq<BenchmarkRow>, proportion: real)
    ensures forall j :: 0 <= j < |AssetLevel(rows, bench, proportion)| ==> AssetLevel(rows, bench, proportion)[j].reduction >= 0.0
  {
  }

  /** The SUM over a sector of non-negative asset potentials is non-negative and bounds each of them. */
  lemma SectorSumBounds(assets: seq<AssetBenchmark>, s: string, i: nat)
    requires forall j :: 0 <= j < |assets| ==> assets[j].reduction >= 0.0
    requires i < |assets| && assets[i].key.sector == s
    ensures var t := BenchSector(assets, s);
      t.reduction.Some? && t.reduction.value >= 0.0 && t.reduction.value >= assets[i].reduction
  {
    var g := Filter(assets, AssetInSector(s));
    assert assets[i] in g;
    var m :| 0 <= m < |g| && g[m] == assets[i];
    assert forall j :: 0 <= j < |g| ==> g[j] in assets;
    CountPresentZero(g, AssetReduction);
    SumPresentAtLeast(g, AssetReduction, m);
  }

  // ---------------------------------------------------------------------

  /** What the query returns, by form. */
  datatype SectorReductionResult = Totals(totals: seq<SectorTotal>) | NettedRows(netted: seq<NetRow>)

  /**
   * `build_sector_reduction_sql`. `table` is the whole annual table (the
   * `sector_mapping` CTE reads it unfiltered); `rows` are the rows the caller's
   * fragments keep; `bench` is the benchmark table with the chosen column.
   */
  function BuildSectorReduction(useCtErs: bool, ersReductionCol: string, rows: seq<AssetRow>, table: seq<AssetRow>,
                                bench: seq<BenchmarkRow>, proportion: real): SectorReductionResult
  {
    if useCtErs then
      if ersReductionCol == "emissions_reduced_at_asset" then Totals(AtAssetBranch(rows))
      else NettedRows(NettingBranch(rows, table))
    else Totals(BenchmarkBranch(rows, bench, proportion))
  }

  /**
   * What each form of the query returns. The at-asset form has one row per
   * sector of the kept rows, carrying that sector's SUM of emissions. The
   * netting form has one row per asset or induced sector, carrying that
   * sector's totals and their netting. The benchmark form has one row per
   * sector of its assets, with a non-NULL, non-negative potential at least
   * that of each of the sector's assets.
   */
  lemma BuildSectorReductionSpec(useCtErs: bool, ersReductionCol: string, rows: seq<AssetRow>, table: seq<AssetRow>,
                                 bench: seq<BenchmarkRow>, proportion: real)
    ensures var r := BuildSectorReduction(useCtErs, ersReductionCol, rows, table, bench, proportion);
      r.NettedRows? <==> useCtErs && ersReductionCol != "emissions_reduced_at_asset"
    ensures var r := BuildSectorReduction(useCtErs, ersReductionCol, rows, table, bench, proportion);
      useCtErs && ersReductionCol == "emissions_reduced_at_asset" ==> AtAssetForm(rows, r.totals)
    ensures var r := BuildSectorReduction(useCtErs, ersReductionCol, rows, table, bench, proportion);
      useCtErs && ersReductionCol != "emissions_reduced_at_asset" ==> NettingForm(rows, table, r.netted)
    ensures var r := BuildSectorReduction(useCtErs, ersReductionCol, rows, table, bench, proportion);
      !useCtErs ==> BenchmarkForm(AssetLevel(rows, bench, proportion), r.totals)
  {
    if useCtErs {
      if ersReductionCol == "emissions_reduced_at_asset" {
        AtAssetBranchForm(rows);
      } else {
        NettingBranchForm(rows, table);
      }
    } else {
      BenchmarkBranchForm(rows, bench, proportion);
    }
  }

  /** The sector column of out is, row for row, ss. */
  predicate SectorsAre(out: seq<SectorTotal>, ss: seq<string>) {
    |out| == |ss| && forall k :: 0 <= k < |out| ==> out[k].sector == ss[k]
  }

  /** out lists each sector once, and exactly the sectors of the rows. */
  predicate OneRowPerSector<T>(rows: seq<T>, key: T -> string, out: seq<SectorTotal>) {
    && (forall i, j :: 0 <= i < j < |out| ==> out[i].sector != out[j].sector)
    && (forall i :: 0 <= i < |rows| ==> exists k :: 0 <= k < |out| && out[k].sector == key(rows[i]))
    && (forall k :: 0 <= k < |out| ==> exists i :: 0 <= i < |rows| && key(rows[i]) == out[k].sector)
  }

  /** Each row's emissions are the SUM over its sector's rows. */
  predicate EmissionsAreSums(rows: seq<AssetRow>, out: seq<SectorTotal>) {
    forall k :: 0 <= k < |out| ==> out[k].emissions == SqlSum(SectorRows(rows, out[k].sector), Emissions)
  }

  /** Every row's potential is non-NULL and at least 0. */
  predicate ReductionsNonNegative(out: seq<SectorTotal>) {
    forall k :: 0 <= k < |out| ==> out[k].reduction.Some? && out[k].reduction.value >= 0.0
  }

  /** Every row's potential is at least that of each asset of its sector. */
  predicate ReductionsCoverAssets(assets: seq<AssetBenchmark>, out: seq<SectorTotal>) {
    forall k, i :: 0 <= k < |out| && 0 <= i < |assets| && assets[i].key.sector == out[k].sector ==>
      out[k].reduction.Some? && out[k].reduction.value >= assets[i].reduction
  }

  /** The at-asset form: one row per sector of the rows, each with the sector's SUM of emissions. */
  predicate AtAssetForm(rows: seq<AssetRow>, out: seq<SectorTotal>) {
    OneRowPerSector(rows, SectorOf, out) && EmissionsAreSums(rows, out)
  }

  /** The netting form: no sector twice, every asset and induced sector present, and NettingValues' figures. */
  ghost predicate NettingForm(rows: seq<AssetRow>, table: seq<AssetRow>, out: seq<NetRow>) {
    && NoDup(SectorsOf(out))
    && (forall i :: 0 <= i < |rows| ==> Some(rows[i].sector) in SectorsOf(out))
    && (forall k :: k in InducedSectors(rows, table) ==> k in SectorsOf(out))
    && (forall k :: k in SectorsOf(out) ==>
          (exists i :: 0 <= i < |rows| && k == Some(rows[i].sector)) || k in InducedSectors(rows, table))
    && (forall j :: 0 <= j < |out| ==> NetRowValues(rows, table, Keys(rows, SectorOf), out[j]))
  }

  /**
   * The benchmark form: one row per sector of the assets, each with a
   * non-NULL potential that is at least 0 and at least each of its assets'.
   */
  predicate BenchmarkForm(assets: seq<AssetBenchmark>, out: seq<SectorTotal>) {
    OneRowPerSector(assets, AssetSector, out) && ReductionsNonNegative(out) && ReductionsCoverAssets(assets, out)
  }

  lemma AtAssetBranchForm(rows: seq<AssetRow>)
    ensures AtAssetForm(rows, AtAssetBranch(rows))
  {
    var ss := Keys(rows, SectorOf);
    AtAssetRowsSectors(rows, ss);
    OneRowPerKey(rows, SectorOf, ss, AtAssetRows(ss, rows));
    AtAssetSums(rows, ss);
  }

  lemma AtAssetRowsSectors(rows: seq<AssetRow>, ss: seq<string>)
    ensures SectorsAre(AtAssetRows(ss, rows), ss)
  {
  }

  lemma AtAssetSums(rows: seq<AssetRow>, ss: seq<string>)
    ensures EmissionsAreSums(rows, AtAssetRows(ss, rows))
  {
    var out := AtAssetRows(ss, rows);
    forall k | 0 <= k < |out|
      ensures out[k].emissions == SqlSum(SectorRows(rows, out[k].sector), Emissions)
    {
      AtAssetEmissions(rows, ss[k]);
    }
  }

  /** Rows laid one per GROUP BY key list each sector once, and exactly the sectors present. */
  lemma OneRowPerKey<T>(rows: seq<T>, key: T -> string, ss: seq<string>, out: seq<SectorTotal>)
    requires ss == Keys(rows, key) && SectorsAre(out, ss)
    ensures OneRowPerSector(rows, key, out)
  {
    forall i | 0 <= i < |rows| ensures exists k :: 0 <= k < |out| && out[k].sector == key(rows[i]) {
      assert key(rows[i]) in ss;
    }
    forall k | 0 <= k < |out| ensures exists i :: 0 <= i < |rows| && key(rows[i]) == out[k].sector {
      assert ss[k] in ss;
    }
  }

  lemma NettingBranchForm(rows: seq<AssetRow>, table: seq<AssetRow>)
    ensures NettingForm(rows, table, NettingBranch(rows, table))
  {
    NettingJoin(rows, table);
    forall j | 0 <= j < |NettingBranch(rows, table)|
      ensures NetRowValues(rows, table, Keys(rows, SectorOf), NettingBranch(rows, table)[j])
    {
      NettingValues(rows, table, j);
    }
  }

  lemma BenchmarkBranchForm(rows: seq<AssetRow>, bench: seq<BenchmarkRow>, proportion: real)
    ensures BenchmarkForm(AssetLevel(rows, bench, proportion), BenchmarkBranch(rows, bench, proportion))
  {
    var assets := AssetLevel(rows, bench, proportion);
    var ss := Keys(assets, AssetSector);
    AssetLevelNonNegative(rows, bench, proportion);
    BenchRowsSectors(assets, ss);
    OneRowPerKey(assets, AssetSector, ss, BenchRows(ss, assets));
    BenchRowsNonNegative(assets, ss);
    BenchRowsCover(rows, bench, proportion);
  }

  lemma BenchRowsSectors(assets: seq<AssetBenchmark>, ss: seq<string>)
    ensures SectorsAre(BenchRows(ss, assets), ss)
  {
  }

  /** Over the distinct sectors of non-negative assets, every sector's potential is non-NULL and at least 0. */
  lemma BenchRowsNonNegative(assets: seq<AssetBenchmark>, ss: seq<string>)
    requires ss == Keys(assets, AssetSector)
    requires forall j :: 0 <= j < |assets| ==> assets[j].reduction >= 0.0
    ensures ReductionsNonNegative(BenchRows(ss, assets))
  {
    var out := BenchRows(ss, assets);
    forall k | 0 <= k < |out| ensures out[k].reduction.Some? && out[k].reduction.value >= 0.0 {
      assert ss[k] in ss;
      var i :| 0 <= i < |assets| && AssetSector(assets[i]) == ss[k];
      SectorSumBounds(assets, ss[k], i);
    }
  }

  lemma BenchRowsCover(rows: seq<AssetRow>, bench: seq<BenchmarkRow>, proportion: real)
    ensures ReductionsCoverAssets(AssetLevel(rows, bench, proportion), BenchmarkBranch(rows, bench, proportion))
  {
    var assets := AssetLevel(rows, bench, proportion);
    var out := BenchmarkBranch(rows, bench, proportion);
    forall k, i | 0 <= k < |out| && 0 <= i < |assets| && assets[i].key.sector == out[k].sector
      ensures out[k].reduction.Some? && out[k].reduction.value >= assets[i].reduction
    {
      BenchmarkSectorBounds(rows, bench, proportion, assets[i].key.sector, i);
    }
  }
}
