/**
 * A row of the annual asset-emissions table the dashboard queries, with the
 * columns the modelled queries read. NULL is None.
 */
module Assets {
  import opened Wrappers

  /** One induced-emissions slot: `induced_sector_k` and `induced_sector_k_induced_emissions`. */
  datatype InducedSlot = InducedSlot(subsector: Option<string>, emissions: Option<real>)

  datatype AssetRow = AssetRow(
    year: int,
    assetId: nat,
    assetName: string,
    iso3: string,
    countryName: string,
    baRegion: Option<string>,
    sector: string,
    subsector: string,
    assetType: Option<string>,
    assetType2: Option<string>,
    reductionQType: string,
    strategyName: Option<string>,
    strategyDescription: Option<string>,
    mechanism: Option<string>,
    activity: Option<real>,
    activityIsTemporal: Option<bool>,
    emissions: Option<real>,
    efMoer: Option<real>,
    reducedAtAsset: Option<real>,
    reducedPerYear: Option<real>,
    induced1: InducedSlot,
    induced2: InducedSlot,
    induced3: InducedSlot)

  function Emissions(r: AssetRow): Option<real> { r.emissions }
  function ActivityCol(r: AssetRow): Option<real> { r.activity }
  function EfMoer(r: AssetRow): Option<real> { r.efMoer }
  function ReducedAtAsset(r: AssetRow): Option<real> { r.reducedAtAsset }
  function ReducedPerYear(r: AssetRow): Option<real> { r.reducedPerYear }
  function Temporal(r: AssetRow): Option<bool> { r.activityIsTemporal }
  function AssetIdOf(r: AssetRow): Option<nat> { Some(r.assetId) }
  function SectorOf(r: AssetRow): string { r.sector }

  /** Slot k (1, 2 or 3) of a row. */
  function Slot(r: AssetRow, k: nat): InducedSlot
    requires 1 <= k <= 3
  {
    if k == 1 then r.induced1 else if k == 2 then r.induced2 else r.induced3
  }
}
