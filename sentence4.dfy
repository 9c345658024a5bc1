/**
 * `build_sentence_4_sql` (utils/queries.py): for the sentence naming the
 * largest subsectors, the subsectors holding at least 5% of their non-power
 * sector's emissions, at most two per sector.
 */
module Sentence4 {
  import opened Wrappers
  import opened Seqs
  import opened Sql
  import opened Text
  import opened Assets

  /** `lower(sector) <> 'power' and sector in (include_sectors)`, after the caller's WHERE. */
  function InScope(included: seq<string>): AssetRow -> bool {
    (r: AssetRow) => Lower(r.sector) != "power" && r.sector in included
  }

  datatype SubKey = SubKey(sector: string, subsector: string)

  function SubKeyOf(r: AssetRow): SubKey { SubKey(r.sector, r.subsector) }

  /** The `sector` CTE: a sector's summed emissions. */
  function SectorTotal(rows: seq<AssetRow>, s: string): Option<real> {
    GroupSum(rows, SectorOf, Emissions)(s)
  }

  /** The `subsector` CTE: a (sector, subsector) pair's summed emissions. */
  function SubsectorTotal(rows: seq<AssetRow>, k: SubKey): Option<real> {
    GroupSum(rows, SubKeyOf, Emissions)(k)
  }

  /**
   * The HAVING test: the subsector's share of its sector is at least 5%. A
   * NULL side, or a zero sector total, makes the share NULL and fails it.
   */
  predicate Significant(sub: Option<real>, sector: Option<real>) {
    sub.Some? && sector.Some? && sector.value != 0.0 && sub.value / sector.value >= 0.05
  }

  /** A row of `agg`. */
  datatype ShareRow = ShareRow(sector: string, subsector: string, emissions: real)

  function ShareEmissions(r: ShareRow): Option<real> { Some(r.emissions) }

  /** x is the `agg` row of the pair k: k is significant and x carries its total. */
  predicate AggRowOf(x: ShareRow, k: SubKey, rows: seq<AssetRow>) {
    && x.sector == k.sector && x.subsector == k.subsector
    && Significant(SubsectorTotal(rows, k), SectorTotal(rows, k.sector))
    && Some(x.emissions) == SubsectorTotal(rows, k)
  }

  /** `agg`: the significant subsectors, each joined with its own sector's total. */
  function Agg(ks: seq<SubKey>, rows: seq<AssetRow>): (out: seq<ShareRow>)
    ensures forall x :: x in out ==> exists k :: k in ks && AggRowOf(x, k, rows)
    ensures forall k :: k in ks && Significant(SubsectorTotal(rows, k), SectorTotal(rows, k.sector)) ==>
      ShareRow(k.sector, k.subsector, SubsectorTotal(rows, k).value) in out
  {
    if ks == [] then []
    else
      var k := ks[0];
      var rest := Agg(ks[1..], rows);
      assert forall k' :: k' in ks ==> k' == k || k' in ks[1..];
      assert forall k' :: k' in ks[1..] ==> k' in ks;
      assert Significant(SubsectorTotal(rows, k), SectorTotal(rows, k.sector)) ==>
        AggRowOf(ShareRow(k.sector, k.subsector, SubsectorTotal(rows, k).value), k, rows);
      if Significant(SubsectorTotal(rows, k), SectorTotal(rows, k.sector))
      then [ShareRow(k.sector, k.subsector, SubsectorTotal(rows, k).value)] + rest
      else rest
  }

  /** A chosen subsector with its `row_number()` within its sector. */
  datatype RankedSub = RankedSub(sector: string, subsector: string, emissions: real, rank: nat)

  function Numbered(s: seq<ShareRow>, from: nat): (out: seq<RankedSub>)
    ensures |out| == |s|
    ensures forall i :: 0 <= i < |s| ==> out[i] == RankedSub(s[i].sector, s[i].subsector, s[i].emissions, from + i)
  {
    if s == [] then [] else [RankedSub(s[0].sector, s[0].subsector, s[0].emissions, from)] + Numbered(s[1..], from + 1)
  }

  function OfSector(s: string): ShareRow -> bool {
    (x: ShareRow) => x.sector == s
  }

  /** Sector s's significant subsectors, largest first. */
  function SectorOrder(agg: seq<ShareRow>, s: string): seq<ShareRow> {
    SortBy(Filter(agg, OfSector(s)), DescNullsLast(ShareEmissions))
  }

  /** `row_number() over (partition by sector order by … desc)`, kept while at most 2. */
  function TopTwo(agg: seq<ShareRow>, s: string): seq<RankedSub> {
    Numbered(Take(SectorOrder(agg, s), 2), 1)
  }

  /** The ranked rows of every sector in ss: the final `where subsector_rank <= 2`. */
  function AllTopTwo(ss: seq<string>, agg: seq<ShareRow>): (out: seq<RankedSub>)
    ensures forall x :: x in out ==> exists s :: s in ss && x in TopTwo(agg, s)
    ensures forall s, x :: s in ss && x in TopTwo(agg, s) ==> x in out
  {
    var top := (s: string) => TopTwo(agg, s);
    var out := ConcatMap(ss, top);
    assert forall s :: top(s) == TopTwo(agg, s);
    out
  }

  function ShareSector(x: ShareRow): string { x.sector }

  /** `agg` over the in-scope rows. */
  function ScopeAgg(rows: seq<AssetRow>, included: seq<string>): seq<ShareRow> {
    var scope := Filter(rows, InScope(included));
    Agg(Keys(scope, SubKeyOf), scope)
  }

  /** `build_sentence_4_sql`, given the rows the caller's WHERE keeps. */
  function Sentence4(rows: seq<AssetRow>, included: seq<string>): seq<RankedSub> {
    var agg := ScopeAgg(rows, included);
    AllTopTwo(Keys(agg, ShareSector), agg)
  }

  /**
   * The query returns exactly the top-two rows of each sector: a row is
   * selected if and only if it is among the first two of its own sector's
   * significant subsectors.
   */
  lemma Sentence4Exactly(rows: seq<AssetRow>, included: seq<string>, x: RankedSub)
    ensures x in Sentence4(rows, included) <==> x in TopTwo(ScopeAgg(rows, included), x.sector)
  {
    SelectedIffTop(ScopeAgg(rows, included), x);
  }

  lemma SelectedIffTop(agg: seq<ShareRow>, x: RankedSub)
    ensures x in AllTopTwo(Keys(agg, ShareSector), agg) <==> x in TopTwo(agg, x.sector)
  {
    if x in AllTopTwo(Keys(agg, ShareSector), agg) {
      SelectedIsTop(agg, x);
    }
    if x in TopTwo(agg, x.sector) {
      TopIsSelected(agg, x);
    }
  }

  lemma SelectedIsTop(agg: seq<ShareRow>, x: RankedSub)
    requires x in AllTopTwo(Keys(agg, ShareSector), agg)
    ensures x in TopTwo(agg, x.sector)
  {
    var s :| s in Keys(agg, ShareSector) && x in TopTwo(agg, s);
    TopTwoAreLargest(agg, s);
    var i :| 0 <= i < |TopTwo(agg, s)| && TopTwo(agg, s)[i] == x;
    assert x.sector == s;
  }

  lemma TopIsSelected(agg: seq<ShareRow>, x: RankedSub)
    requires x in TopTwo(agg, x.sector)
    ensures x in AllTopTwo(Keys(agg, ShareSector), agg)
  {
    TopTwoFromAgg(agg, x.sector, x);
    var y := ShareRow(x.sector, x.subsector, x.emissions);
    var j :| 0 <= j < |agg| && agg[j] == y;
    assert ShareSector(agg[j]) == x.sector;
    assert x.sector in Keys(agg, ShareSector);
  }

  /**
   * Completeness: the first and the second of a sector's significant
   * subsectors, in descending emissions, are selected with ranks 1 and 2.
   */
  lemma Sentence4Complete(rows: seq<AssetRow>, included: seq<string>, s: string, i: nat)
    requires i < 2 && i < |SectorOrder(ScopeAgg(rows, included), s)|
    ensures var o := SectorOrder(ScopeAgg(rows, included), s);
      RankedSub(o[i].sector, o[i].subsector, o[i].emissions, i + 1) in Sentence4(rows, included)
  {
    var agg := ScopeAgg(rows, included);
    var o := SectorOrder(agg, s);
    var top := Take(o, 2);
    assert top[i] == o[i];
    var x := TopTwo(agg, s)[i];
    assert x == RankedSub(o[i].sector, o[i].subsector, o[i].emissions, i + 1);
    SectorOrderFacts(agg, s);
    assert x.sector == s;
    assert x in TopTwo(agg, x.sector);
    Sentence4Exactly(rows, included, x);
  }

  /** A chosen subsector is a row of `agg` with rank 1 or 2. */
  lemma TopTwoFromAgg(agg: seq<ShareRow>, s: string, x: RankedSub)
    requires x in TopTwo(agg, s)
    ensures ShareRow(x.sector, x.subsector, x.emissions) in agg && 1 <= x.rank <= 2
  {
    var top := Take(SectorOrder(agg, s), 2);
    var i :| 0 <= i < |top| && TopTwo(agg, s)[i] == x;
    var y := top[i];
    assert y == SectorOrder(agg, s)[i];
    assert y in multiset(Filter(agg, OfSector(s)));
    assert y in Filter(agg, OfSector(s));
    assert y == ShareRow(x.sector, x.subsector, x.emissions);
  }

  /**
   * A chosen subsector lies in an included non-power sector, holds at least
   * 5% of that sector's emissions, and has rank 1 or 2.
   */
  lemma Sentence4Selection(rows: seq<AssetRow>, included: seq<string>, x: RankedSub)
    requires x in Sentence4(rows, included)
    ensures Lower(x.sector) != "power" && x.sector in included
    ensures AggRowOf(ShareRow(x.sector, x.subsector, x.emissions), SubKey(x.sector, x.subsector), Filter(rows, InScope(included)))
    ensures 1 <= x.rank <= 2
  {
    var scope := Filter(rows, InScope(included));
    var ks := Keys(scope, SubKeyOf);
    var agg := Agg(ks, scope);
    assert agg == ScopeAgg(rows, included);
    var s :| s in Keys(agg, ShareSector) && x in TopTwo(agg, s);
    TopTwoFromAgg(agg, s, x);
    var y := ShareRow(x.sector, x.subsector, x.emissions);
    var k :| k in ks && AggRowOf(y, k, scope);
    assert k == SubKey(x.sector, x.subsector);
    var j :| 0 <= j < |scope| && SubKeyOf(scope[j]) == k;
    assert scope[j] in scope;
    assert InScope(included)(scope[j]);
  }

  /**
   * Within sector s the chosen subsectors are its largest significant ones:
   * at most two, ranked 1, 2 in order of emissions, and none left out
   * exceeds one chosen.
   */
  lemma TopTwoAreLargest(agg: seq<ShareRow>, s: string)
    ensures |TopTwo(agg, s)| <= 2
    ensures forall i :: 0 <= i < |TopTwo(agg, s)| ==> TopTwo(agg, s)[i].rank == i + 1 && TopTwo(agg, s)[i].sector == s
    ensures forall i, j :: 0 <= i < j < |TopTwo(agg, s)| ==> TopTwo(agg, s)[i].emissions >= TopTwo(agg, s)[j].emissions
    ensures forall i, j :: 0 <= i < |TopTwo(agg, s)| <= j < |SectorOrder(agg, s)| ==>
      TopTwo(agg, s)[i].emissions >= SectorOrder(agg, s)[j].emissions
  {
    SectorOrderFacts(agg, s);
    TopOfOrder(SectorOrder(agg, s), s);
  }

  /** The ordered rows of sector s all belong to s and descend in emissions. */
  lemma SectorOrderFacts(agg: seq<ShareRow>, s: string)
    ensures forall i :: 0 <= i < |SectorOrder(agg, s)| ==> SectorOrder(agg, s)[i].sector == s
    ensures forall i, j :: 0 <= i < j < |SectorOrder(agg, s)| ==>
      SectorOrder(agg, s)[i].emissions >= SectorOrder(agg, s)[j].emissions
  {
    var o := SectorOrder(agg, s);
    DescNullsLastIsTotalPreorder(ShareEmissions);
    SortBySorted(Filter(agg, OfSector(s)), DescNullsLast(ShareEmissions));
    SortedDescNullsLast(o, ShareEmissions);
    forall i | 0 <= i < |o| ensures o[i].sector == s {
      assert o[i] in multiset(Filter(agg, OfSector(s)));
      assert o[i] in Filter(agg, OfSector(s));
    }
    forall i, j | 0 <= i < j < |o| ensures o[i].emissions >= o[j].emissions {
      assert ShareEmissions(o[i]).value >= ShareEmissions(o[j]).value;
    }
  }

  /** Numbering the first two rows of a descending order of sector s. */
  lemma TopOfOrder(o: seq<ShareRow>, s: string)
    requires forall i :: 0 <= i < |o| ==> o[i].sector == s
    requires forall i, j :: 0 <= i < j < |o| ==> o[i].emissions >= o[j].emissions
    ensures var top := Numbered(Take(o, 2), 1);
      && |top| <= 2
      && (forall i :: 0 <= i < |top| ==> top[i].rank == i + 1 && top[i].sector == s)
      && (forall i, j :: 0 <= i < j < |top| ==> top[i].emissions >= top[j].emissions)
      && (forall i, j :: 0 <= i < |top| <= j < |o| ==> top[i].emissions >= o[j].emissions)
  {
    var t := Take(o, 2);
    assert forall i :: 0 <= i < |t| ==> t[i] == o[i];
  }
}
