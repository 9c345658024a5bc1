/**
 * The geometry of `plot_abatement_curve` (utils/utils.py): rows sorted by the
 * chosen metric, the running sum of activity, the zero row put in front, the
 * step segments drawn for the rows and the x position of highlight markers.
 * Plotly itself (traces, hover text, axes) is not modelled; a trace is
 * reduced to the rectangle it fills.
 */
module Curve {
  import opened Wrappers
  import opened Seqs
  import opened Regions

  /**
   * A metric cell as pandas holds it: a finite value, plus or minus infinity
   * (a non-zero total over zero activity) or NaN.
   */
  datatype Float = Finite(value: real) | PlusInf | MinusInf | NotANumber

  /** The hover id: the numeric `asset_id` in the asset branch, a country or region name otherwise. */
  datatype HoverId = AssetId(assetId: int) | NameId(name: string)

  /** One row of the curve frame: its hover id, activity, metric value and colouring value. */
  datatype CurveRow = CurveRow(id: HoverId, activity: real, metric: Float, colourBy: Cell)

  function ActivityOf(r: CurveRow): real { r.activity }

  /** Summed activity of the rows. */
  function Activity(rows: seq<CurveRow>): real {
    Sum(rows, ActivityOf)
  }

  /** Position of a non-NaN value among the infinities: -inf, the finite values, +inf. */
  function Level(m: Float): int {
    match m
    case MinusInf => 0
    case Finite(_) => 1
    case PlusInf => 2
    case NotANumber => 0
  }

  /** a > b for two non-NaN floats. */
  predicate Above(a: Float, b: Float) {
    Level(a) > Level(b) || (a.Finite? && b.Finite? && a.value > b.value)
  }

  /** a >= b for two non-NaN floats. */
  predicate AtLeast(a: Float, b: Float) {
    Above(a, b) || a == b
  }

  /**
   * `sort_values([metric, 'activity'], ascending=[False, True])`: a may come
   * before b. +inf comes first, -inf after every finite value, and NaN
   * metrics go last, as pandas places them.
   */
  predicate CurveBefore(a: CurveRow, b: CurveRow) {
    if a.metric != NotANumber && b.metric != NotANumber then
      Above(a.metric, b.metric) || (a.metric == b.metric && a.activity <= b.activity)
    else if a.metric != NotANumber then true
    else if b.metric != NotANumber then false
    else a.activity <= b.activity
  }

  lemma CurveBeforeIsTotalPreorder()
    ensures TotalPreorder(CurveBefore)
  {
  }

  function SortCurve(rows: seq<CurveRow>): seq<CurveRow> {
    SortBy(rows, CurveBefore)
  }

  /**
   * The sorted rows are a permutation of the input with the metric
   * non-increasing (NaN last) and, for equal metrics, activity non-decreasing.
   */
  lemma SortCurveOrder(rows: seq<CurveRow>)
    ensures multiset(SortCurve(rows)) == multiset(rows)
    ensures var s := SortCurve(rows);
      forall i, j :: 0 <= i < j < |s| ==>
        (s[j].metric != NotANumber ==> s[i].metric != NotANumber && AtLeast(s[i].metric, s[j].metric)) &&
        (s[i].metric == s[j].metric ==> s[i].activity <= s[j].activity)
  {
    CurveBeforeIsTotalPreorder();
    SortBySorted(rows, CurveBefore);
    var s := SortCurve(rows);
    forall i, j | 0 <= i < j < |s|
      ensures (s[j].metric != NotANumber ==> s[i].metric != NotANumber && AtLeast(s[i].metric, s[j].metric)) &&
        (s[i].metric == s[j].metric ==> s[i].activity <= s[j].activity)
    {
      assert CurveBefore(s[i], s[j]);
    }
  }

  /**
   * A row whose metric is +inf (a grouped emissions factor over zero
   * activity) sorts to the front, so its colour is the one the zero row copies.
   */
  lemma InfinitySortsFirst(rows: seq<CurveRow>, j: nat)
    requires j < |rows| && rows[j].metric == PlusInf
    ensures SortCurve(rows) != [] && SortCurve(rows)[0].metric == PlusInf
  {
    SortCurveOrder(rows);
    var s := SortCurve(rows);
    assert rows[j] in multiset(s);
    var k :| 0 <= k < |s| && s[k] == rows[j];
    if k > 0 {
      assert AtLeast(s[0].metric, s[k].metric);
    }
  }

  /** A row of the plotted frame: `activity_cum`, `activity`, the metric, `color`, and the hover id (None for NaN). */
  datatype PlotRow = PlotRow(cum: real, activity: real, metric: Float, colour: Option<string>, id: Option<HoverId>)

  /** `df[choice_color].map(dict_color[choice_color])`: the colour, or None (NaN) when the value has none. */
  function ColourOf(c: Cell, palette: map<string, string>): (r: Option<string>)
    ensures r.Some? <==> c.TextCell? && c.text in palette
  {
    if c.TextCell? && c.text in palette then Some(palette[c.text]) else None
  }

  /** The asset branch first turns NaN into False; the palettes are keyed by strings, so the colour is unchanged. */
  function NanToFalse(c: Cell): Cell {
    if c == Missing then FlagCell(false) else c
  }

  lemma NanToFalseKeepsColour(c: Cell, palette: map<string, string>)
    ensures ColourOf(NanToFalse(c), palette) == ColourOf(c, palette)
  {
  }

  /**
   * The row put in front: zero in every numeric column, NaN elsewhere, and
   * the first row's colour. The hover id column is numeric exactly in the
   * asset branch (`asset_id`), so there the zero row's id is 0.
   */
  function ZeroRow(first: PlotRow): PlotRow {
    PlotRow(0.0, 0.0, Finite(0.0), first.colour,
      if first.id.Some? && first.id.value.AssetId? then Some(AssetId(0)) else None)
  }

  /** The plotted row for sorted row i: its running total of activity and its colour. */
  function DataRow(sorted: seq<CurveRow>, i: nat, palette: map<string, string>): PlotRow
    requires i < |sorted|
  {
    var r := sorted[i];
    PlotRow(Activity(sorted[..i + 1]), r.activity, r.metric, ColourOf(r.colourBy, palette), Some(r.id))
  }

  /**
   * The plotted frame of already sorted rows: the zero row, then one row per
   * data row. An empty frame fails (`df.loc[0, 'color']` raises), which is None.
   */
  function Frame(sorted: seq<CurveRow>, palette: map<string, string>): (f: Option<seq<PlotRow>>)
    ensures f.Some? <==> sorted != []
    ensures f.Some? ==> |f.value| == |sorted| + 1
  {
    if sorted == [] then None
    else
      var data := seq(|sorted|, i requires 0 <= i < |sorted| => DataRow(sorted, i, palette));
      Some([ZeroRow(data[0])] + data)
  }

  /** Column kinds of a pandas frame, as far as building the zero row cares. */
  datatype ColumnKind = ColourColumn | NumericColumn | OtherColumn

  /** A cell of the zero row. */
  datatype Value = Number(real) | NaN | Colour(Option<string>)

  /** The loop that builds `new_row` column by column. */
  method NewRow(kinds: seq<ColumnKind>, firstColour: Option<string>) returns (row: seq<Value>)
    ensures |row| == |kinds|
    ensures forall i :: 0 <= i < |kinds| ==>
      row[i] == (match kinds[i]
                 case ColourColumn => Colour(firstColour)
                 case NumericColumn => Number(0.0)
                 case OtherColumn => NaN)
  {
    row := [];
    for i := 0 to |kinds|
      invariant |row| == i
      invariant forall k :: 0 <= k < i ==>
        row[k] == (match kinds[k]
                   case ColourColumn => Colour(firstColour)
                   case NumericColumn => Number(0.0)
                   case OtherColumn => NaN)
    {
      var v: Value;
      match kinds[i] {
        case ColourColumn => v := Colour(firstColour);
        case NumericColumn => v := Number(0.0);
        case OtherColumn => v := NaN;
      }
      row := row + [v];
    }
  }

  lemma {:induction false} SumNonNegative(rows: seq<CurveRow>)
    requires forall i :: 0 <= i < |rows| ==> rows[i].activity >= 0.0
    ensures Activity(rows) >= 0.0
  {
    if rows != [] {
      SumNonNegative(rows[1..]);
    }
  }

  lemma {:induction false} ActivityOfPrefix(rows: seq<CurveRow>, i: nat)
    requires i < |rows|
    ensures Activity(rows[..i + 1]) == Activity(rows[..i]) + rows[i].activity
  {
    assert rows[..i + 1] == rows[..i] + [rows[i]];
    SumAppend(rows[..i], [rows[i]], ActivityOf);
  }

  /**
   * The running sum the frame builds, in one pass (`df['activity'].cumsum()`
   * and the concatenation behind the zero row).
   */
  method BuildFrame(sorted: seq<CurveRow>, palette: map<string, string>) returns (frame: Option<seq<PlotRow>>)
    ensures frame == Frame(sorted, palette)
  {
    if sorted == [] {
      return None;
    }
    var data: seq<PlotRow> := [];
    var acc := 0.0;
    for i := 0 to |sorted|
      invariant |data| == i
      invariant acc == Activity(sorted[..i])
      invariant forall k :: 0 <= k < i ==> data[k] == DataRow(sorted, k, palette)
    {
      ActivityOfPrefix(sorted, i);
      acc := acc + sorted[i].activity;
      var r := sorted[i];
      data := data + [PlotRow(acc, r.activity, r.metric, ColourOf(r.colourBy, palette), Some(r.id))];
    }
    assert data == seq(|sorted|, i requires 0 <= i < |sorted| => DataRow(sorted, i, palette));
    frame := Some([ZeroRow(data[0])] + data);
  }

  /** The running sums start at the first activity, grow by each activity, and end at the total. */
  lemma FrameCumulative(sorted: seq<CurveRow>, palette: map<string, string>)
    requires sorted != []
    ensures var f := Frame(sorted, palette).value;
      f[0].cum == 0.0 && f[0].colour == f[1].colour &&
      f[0].id == (if sorted[0].id.AssetId? then Some(AssetId(0)) else None) &&
      (forall i :: 1 <= i < |f| ==> f[i].cum == f[i - 1].cum + f[i].activity && f[i].activity == sorted[i - 1].activity) &&
      f[|f| - 1].cum == Activity(sorted)
  {
    var f := Frame(sorted, palette).value;
    forall i | 1 <= i < |f|
      ensures f[i].cum == f[i - 1].cum + f[i].activity
    {
      ActivityOfPrefix(sorted, i - 1);
      if i == 1 {
        assert sorted[..0] == [];
      }
    }
    assert sorted[..|sorted|] == sorted;
  }

  /** With non-negative activity the running sums never decrease. */
  lemma FrameCumulativeMonotone(sorted: seq<CurveRow>, palette: map<string, string>)
    requires sorted != []
    requires forall i :: 0 <= i < |sorted| ==> sorted[i].activity >= 0.0
    ensures var f := Frame(sorted, palette).value;
      forall i, j :: 0 <= i <= j < |f| ==> f[i].cum <= f[j].cum
  {
    var f := Frame(sorted, palette).value;
    FrameCumulative(sorted, palette);
    forall i, j | 0 <= i <= j < |f| ensures f[i].cum <= f[j].cum {
      var k := i;
      while k < j
        invariant i <= k <= j
        invariant f[i].cum <= f[k].cum
      {
        k := k + 1;
      }
    }
  }

  /** The area a trace fills: [x0, x1] at the given height, in the given colour. */
  datatype Segment = Segment(x0: real, x1: real, height: Float, colour: Option<string>)

  /**
   * The traces as the source draws them. The first spans [0, cum[1]] at
   * metric[1]; trace i >= 2 has x = [cum[i-1], cum[i]], y = [metric[i-1],
   * metric[i]] and line shape 'hv', which runs horizontally at y[0] first, so
   * it fills its span at the height of the row before it.
   */
  function SegmentsAsWritten(f: seq<PlotRow>): (segs: seq<Segment>)
    requires |f| >= 2
    ensures |segs| == |f| - 1
  {
    seq(|f| - 1, k requires 0 <= k < |f| - 1 =>
      if k == 0 then Segment(0.0, f[1].cum, f[1].metric, f[1].colour)
      else Segment(f[k].cum, f[k + 1].cum, f[k].metric, f[k + 1].colour))
  }

  /** The traces with each row's span filled at that row's own metric. */
  function Segments(f: seq<PlotRow>): (segs: seq<Segment>)
    requires |f| >= 2
    ensures |segs| == |f| - 1
  {
    seq(|f| - 1, k requires 0 <= k < |f| - 1 =>
      Segment(if k == 0 then 0.0 else f[k].cum, f[k + 1].cum, f[k + 1].metric, f[k + 1].colour))
  }

  /**
   * The segments tile [0, total activity]: the first starts at 0, each starts
   * where the previous one ends, each is as wide as its row's activity, the
   * last ends at the total, and each has its row's metric and colour.
   */
  lemma SegmentsTile(sorted: seq<CurveRow>, palette: map<string, string>)
    requires sorted != []
    ensures var segs := Segments(Frame(sorted, palette).value);
      |segs| == |sorted| &&
      segs[0].x0 == 0.0 &&
      (forall k :: 1 <= k < |segs| ==> segs[k].x0 == segs[k - 1].x1) &&
      (forall k :: 0 <= k < |segs| ==> segs[k].x1 - segs[k].x0 == sorted[k].activity) &&
      (forall k :: 0 <= k < |segs| ==>
        segs[k].height == sorted[k].metric && segs[k].colour == ColourOf(sorted[k].colourBy, palette)) &&
      segs[|segs| - 1].x1 == Activity(sorted)
  {
    var f := Frame(sorted, palette).value;
    forall i | 0 <= i < |sorted| ensures f[i + 1] == DataRow(sorted, i, palette) {
    }
    SegmentsOfRunningSums(f, sorted, palette);
  }

  /** Segments of any frame made of the zero row and the data rows. */
  lemma SegmentsOfRunningSums(f: seq<PlotRow>, sorted: seq<CurveRow>, palette: map<string, string>)
    requires sorted != [] && |f| == |sorted| + 1 && f[0].cum == 0.0
    requires forall i :: 0 <= i < |sorted| ==> f[i + 1] == DataRow(sorted, i, palette)
    ensures var segs := Segments(f);
      |segs| == |sorted| &&
      segs[0].x0 == 0.0 &&
      (forall k :: 1 <= k < |segs| ==> segs[k].x0 == segs[k - 1].x1) &&
      (forall k :: 0 <= k < |segs| ==> segs[k].x1 - segs[k].x0 == sorted[k].activity) &&
      (forall k :: 0 <= k < |segs| ==>
        segs[k].height == sorted[k].metric && segs[k].colour == ColourOf(sorted[k].colourBy, palette)) &&
      segs[|segs| - 1].x1 == Activity(sorted)
  {
    var segs := Segments(f);
    forall k | 0 <= k < |segs|
      ensures segs[k].x0 == (if k == 0 then 0.0 else Activity(sorted[..k])) && segs[k].x1 == Activity(sorted[..k + 1])
      ensures segs[k].height == sorted[k].metric && segs[k].colour == ColourOf(sorted[k].colourBy, palette)
    {
      SegmentAt(f, k);
      assert f[k + 1] == DataRow(sorted, k, palette);
      if k > 0 {
        assert f[k - 1 + 1] == DataRow(sorted, k - 1, palette);
      }
    }
    forall k | 0 <= k < |segs|
      ensures segs[k].x1 - segs[k].x0 == sorted[k].activity
    {
      ActivityOfPrefix(sorted, k);
      if k == 0 {
        assert sorted[..0] == [];
      }
    }
    assert sorted[..|sorted|] == sorted;
  }

  lemma SegmentAt(f: seq<PlotRow>, k: nat)
    requires |f| >= 2 && k < |f| - 1
    ensures Segments(f)[k] == Segment(if k == 0 then 0.0 else f[k].cum, f[k + 1].cum, f[k + 1].metric, f[k + 1].colour)
  {
  }

  /** As written, every trace after the first fills its span at the previous row's metric. */
  lemma SegmentsAsWrittenLag(sorted: seq<CurveRow>, palette: map<string, string>)
    requires sorted != []
    ensures var segs := SegmentsAsWritten(Frame(sorted, palette).value);
      segs[0].height == sorted[0].metric &&
      forall k :: 1 <= k < |segs| ==> segs[k].height == sorted[k - 1].metric
  {
    var f := Frame(sorted, palette).value;
    var segs := SegmentsAsWritten(f);
    forall k | 1 <= k < |segs| ensures segs[k].height == sorted[k - 1].metric {
      assert segs[k] == Segment(f[k].cum, f[k + 1].cum, f[k].metric, f[k + 1].colour);
      assert f[k] == DataRow(sorted, k - 1, palette);
    }
    assert segs[0].height == f[1].metric;
    assert f[1] == DataRow(sorted, 0, palette);
  }

  /** Two assets of activity 1 with metrics 5 and 3: the second is drawn at height 5, not 3. */
  lemma SegmentsAsWrittenCounterexample()
    ensures var sorted := [CurveRow(AssetId(1), 1.0, Finite(5.0), Missing), CurveRow(AssetId(2), 1.0, Finite(3.0), Missing)];
      var segs := SegmentsAsWritten(Frame(sorted, map[]).value);
      SortCurve(sorted) == sorted && segs[1].height == Finite(5.0) && sorted[1].metric == Finite(3.0)
  {
    var sorted := [CurveRow(AssetId(1), 1.0, Finite(5.0), Missing), CurveRow(AssetId(2), 1.0, Finite(3.0), Missing)];
    assert sorted[..1] == [sorted[0]];
    assert Insert(sorted[1], [sorted[0]], CurveBefore) == sorted;
  }

  /** The x of a highlight marker: `activity_cum - activity / 2`. */
  function HighlightX(r: PlotRow): real {
    r.cum - r.activity / 2.0
  }

  /** The rows whose hover id is selected (`isin`); a NaN id never is. */
  function Highlighted(f: seq<PlotRow>, selected: set<HoverId>): (h: seq<nat>)
    ensures forall k :: 0 <= k < |h| ==> h[k] < |f| && f[h[k]].id.Some? && f[h[k]].id.value in selected
    ensures forall i :: 0 <= i < |f| && f[i].id.Some? && f[i].id.value in selected ==> i in h
  {
    if f == [] then []
    else
      var rest := Highlighted(f[..|f| - 1], selected);
      if f[|f| - 1].id.Some? && f[|f| - 1].id.value in selected then rest + [|f| - 1] else rest
  }

  /**
   * A highlight marker of a data row sits at the midpoint of its own row's
   * segment. The zero row is highlighted only in the asset branch with asset
   * id 0 selected, and then its marker is at x = 0.
   */
  lemma HighlightAtMidpoint(sorted: seq<CurveRow>, palette: map<string, string>, selected: set<HoverId>)
    requires sorted != []
    ensures var f := Frame(sorted, palette).value;
      var segs := Segments(f);
      forall k :: 0 <= k < |Highlighted(f, selected)| ==>
        var i := Highlighted(f, selected)[k];
        if i == 0 then sorted[0].id.AssetId? && AssetId(0) in selected && HighlightX(f[0]) == 0.0
        else HighlightX(f[i]) == (segs[i - 1].x0 + segs[i - 1].x1) / 2.0
  {
    FrameCumulative(sorted, palette);
  }

  /** The zero row is highlighted exactly when its id is the numeric 0 of the asset branch and 0 is selected. */
  lemma ZeroRowHighlighted(sorted: seq<CurveRow>, palette: map<string, string>, selected: set<HoverId>)
    requires sorted != []
    ensures 0 in Highlighted(Frame(sorted, palette).value, selected) <==> sorted[0].id.AssetId? && AssetId(0) in selected
  {
    FrameCumulative(sorted, palette);
    var f := Frame(sorted, palette).value;
    var h := Highlighted(f, selected);
    if 0 in h {
      var k :| 0 <= k < |h| && h[k] == 0;
    }
  }

  /**
   * One asset as the country and balancing-authority branches see it before
   * the pivot: the index columns, the colouring value and the summed columns.
   */
  datatype AssetPoint = AssetPoint(iso3: string, country: string, region: string, sector: string, subsector: string,
                                   colourBy: Cell, activity: real, emissions: real, reduction: real, netReduction: real)

  /** `choice_group` of the grouped branches. */
  datatype Grouping = ByCountry | ByRegion

  /** The metric plotted on the y axis. */
  datatype Metric = EmissionsFactor | AssetReductionPotential | NetReductionPotential

  /**
   * The pivot index `fds_key`: the colouring value, `iso3_country`,
   * `country_name`, the balancing-authority region when grouping by it,
   * `sector` and `subsector`. With `choice_color == 'sector'` the colouring
   * value is the sector itself, so leaving it out of the index, as the
   * source does then, groups the same rows.
   */
  datatype PivotKey = PivotKey(colourBy: Cell, iso3: string, country: string, region: Option<string>,
                               sector: string, subsector: string)

  function PointKey(grouping: Grouping): AssetPoint -> PivotKey {
    (p: AssetPoint) => PivotKey(p.colourBy, p.iso3, p.country, if grouping == ByRegion then Some(p.region) else None,
                                p.sector, p.subsector)
  }
  function PointActivity(p: AssetPoint): real { p.activity }
  function PointEmissions(p: AssetPoint): real { p.emissions }
  function PointReduction(p: AssetPoint): real { p.reduction }
  function PointNet(p: AssetPoint): real { p.netReduction }

  /**
   * `emissions_quantity / activity` of a pivot row in floating point: a
   * non-zero total over zero activity is an infinity of its sign, 0 / 0 is NaN.
   */
  function Ratio(emissions: real, activity: real): (r: Float)
    ensures r.Finite? <==> activity != 0.0
    ensures r.Finite? ==> r.value * activity == emissions
    ensures r == PlusInf <==> activity == 0.0 && emissions > 0.0
    ensures r == MinusInf <==> activity == 0.0 && emissions < 0.0
    ensures r == NotANumber <==> activity == 0.0 && emissions == 0.0
  {
    if activity != 0.0 then Finite(emissions / activity)
    else if emissions > 0.0 then PlusInf
    else if emissions < 0.0 then MinusInf
    else NotANumber
  }

  /** The hover id of a pivot row: `country_name`, or the balancing-authority region. */
  function PivotId(k: PivotKey): HoverId {
    match k.region
    case Some(r) => NameId(r)
    case None => NameId(k.country)
  }

  /** The curve row of one pivot group: summed columns, the metric of the choice. */
  function PivotRow(k: PivotKey, g: seq<AssetPoint>, metric: Metric): CurveRow {
    var activity := Sum(g, PointActivity);
    CurveRow(PivotId(k), activity,
      match metric
      case EmissionsFactor => Ratio(Sum(g, PointEmissions), activity)
      case AssetReductionPotential => Finite(Sum(g, PointReduction))
      case NetReductionPotential => Finite(Sum(g, PointNet)),
      k.colourBy)
  }

  /** `pivot_table(index=…, aggfunc='sum')` over the groups ks, one row per group. */
  function PivotRows(ks: seq<PivotKey>, points: seq<AssetPoint>, grouping: Grouping, metric: Metric): (rows: seq<CurveRow>)
    ensures |rows| == |ks|
    ensures forall i :: 0 <= i < |ks| ==> rows[i] == PivotRow(ks[i], Group(points, PointKey(grouping), ks[i]), metric)
  {
    if ks == [] then []
    else [PivotRow(ks[0], Group(points, PointKey(grouping), ks[0]), metric)] + PivotRows(ks[1..], points, grouping, metric)
  }

  /** Rows whose colouring value is NaN drop out of the pivot (its index is a groupby key). */
  function KeptPoints(points: seq<AssetPoint>): (kept: seq<AssetPoint>)
    ensures forall p :: p in kept <==> p in points && p.colourBy != Missing
  {
    if points == [] then []
    else (if points[0].colourBy != Missing then [points[0]] else []) + KeptPoints(points[1..])
  }

  /** The unsorted curve rows of the country and balancing-authority branches. */
  function Pivot(points: seq<AssetPoint>, grouping: Grouping, metric: Metric): seq<CurveRow> {
    var kept := KeptPoints(points);
    PivotRows(Keys(kept, PointKey(grouping)), kept, grouping, metric)
  }

  /**
   * Assets that differ in any index column land in different groups, so in
   * different pivot rows (row i of the pivot is the group of key i).
   */
  lemma PivotSeparatesKeys(points: seq<AssetPoint>, grouping: Grouping, p: AssetPoint, q: AssetPoint)
    requires p in KeptPoints(points) && q in KeptPoints(points)
    requires p.iso3 != q.iso3 || p.country != q.country || (grouping == ByRegion && p.region != q.region) ||
             p.sector != q.sector || p.subsector != q.subsector || p.colourBy != q.colourBy
    ensures var kept := KeptPoints(points);
      var ks := Keys(kept, PointKey(grouping));
      exists i, j :: 0 <= i < |ks| && 0 <= j < |ks| && i != j &&
        p in Group(kept, PointKey(grouping), ks[i]) && q in Group(kept, PointKey(grouping), ks[j])
  {
    KeysDiffer(grouping, p, q);
    DistinctKeysDistinctGroups(KeptPoints(points), PointKey(grouping), p, q);
  }

  lemma KeysDiffer(grouping: Grouping, p: AssetPoint, q: AssetPoint)
    requires p.iso3 != q.iso3 || p.country != q.country || (grouping == ByRegion && p.region != q.region) ||
             p.sector != q.sector || p.subsector != q.subsector || p.colourBy != q.colourBy
    ensures PointKey(grouping)(p) != PointKey(grouping)(q)
  {
  }

  lemma DistinctKeysDistinctGroups(kept: seq<AssetPoint>, key: AssetPoint -> PivotKey, p: AssetPoint, q: AssetPoint)
    requires p in kept && q in kept && key(p) != key(q)
    ensures var ks := Keys(kept, key);
      exists i, j :: 0 <= i < |ks| && 0 <= j < |ks| && i != j && p in Group(kept, key, ks[i]) && q in Group(kept, key, ks[j])
  {
    var ks := Keys(kept, key);
    var a :| 0 <= a < |kept| && kept[a] == p;
    var b :| 0 <= b < |kept| && kept[b] == q;
    assert key(kept[a]) in ks && key(kept[b]) in ks;
    var i :| 0 <= i < |ks| && ks[i] == key(p);
    var j :| 0 <= j < |ks| && ks[j] == key(q);
    InGroup(kept, key, p);
    InGroup(kept, key, q);
  }

  lemma InGroup(kept: seq<AssetPoint>, key: AssetPoint -> PivotKey, p: AssetPoint)
    requires p in kept
    ensures p in Group(kept, key, key(p))
  {
  }

  lemma {:induction false} PivotRowsActivity(ks: seq<PivotKey>, points: seq<AssetPoint>, grouping: Grouping, metric: Metric)
    ensures Activity(PivotRows(ks, points, grouping, metric)) == SumOverGroups(ks, points, PointKey(grouping), PointActivity)
  {
    if ks != [] {
      PivotRowsActivity(ks[1..], points, grouping, metric);
      assert PivotRows(ks, points, grouping, metric)[1..] == PivotRows(ks[1..], points, grouping, metric);
    }
  }

  /**
   * Grouping by country does not change the curve's width: the pivot rows'
   * activity adds up to the activity of the assets it keeps.
   */
  lemma PivotKeepsTotalActivity(points: seq<AssetPoint>, grouping: Grouping, metric: Metric)
    ensures Activity(Pivot(points, grouping, metric)) == Sum(KeptPoints(points), PointActivity)
  {
    var kept := KeptPoints(points);
    PivotRowsActivity(Keys(kept, PointKey(grouping)), kept, grouping, metric);
    GroupsPartition(Keys(kept, PointKey(grouping)), kept, PointKey(grouping), PointActivity);
  }

  /**
   * In the grouped branches the emissions factor of a row is the group's
   * summed emissions over its summed activity (Ratio), an infinity or NaN when that activity is 0.
   */
  lemma PivotEmissionsFactor(points: seq<AssetPoint>, grouping: Grouping, i: nat)
    requires i < |Pivot(points, grouping, EmissionsFactor)|
    ensures var kept := KeptPoints(points);
      var g := Group(kept, PointKey(grouping), Keys(kept, PointKey(grouping))[i]);
      var row := Pivot(points, grouping, EmissionsFactor)[i];
      row.activity == Sum(g, PointActivity) && row.metric == Ratio(Sum(g, PointEmissions), Sum(g, PointActivity))
  {
  }

  /** The asset branch: sort the rows, then build the frame. */
  function AssetCurve(rows: seq<CurveRow>, palette: map<string, string>): Option<seq<PlotRow>> {
    Frame(SortCurve(rows), palette)
  }

  /** The country and balancing-authority branches: pivot, sort, then build the frame. */
  function GroupedCurve(points: seq<AssetPoint>, grouping: Grouping, metric: Metric, palette: map<string, string>): Option<seq<PlotRow>> {
    Frame(SortCurve(Pivot(points, grouping, metric)), palette)
  }

  /**
   * The grouped curve, once pivoted, sorted and framed, ends where the kept
   * assets' activity ends: the last `activity_cum` is their total activity.
   */
  lemma GroupedCurveEndsAtTotal(points: seq<AssetPoint>, grouping: Grouping, metric: Metric, palette: map<string, string>)
    requires KeptPoints(points) != []
    ensures GroupedCurve(points, grouping, metric, palette).Some?
    ensures var f := GroupedCurve(points, grouping, metric, palette).value;
      f[|f| - 1].cum == Sum(KeptPoints(points), PointActivity)
  {
    var kept := KeptPoints(points);
    var rows := Pivot(points, grouping, metric);
    assert PointKey(grouping)(kept[0]) in Keys(kept, PointKey(grouping));
    assert rows != [];
    SortCurveOrder(rows);
    var sorted := SortCurve(rows);
    assert |sorted| == |multiset(sorted)| == |multiset(rows)| == |rows|;
    SumOfPermutation(sorted, rows, ActivityOf);
    PivotKeepsTotalActivity(points, grouping, metric);
    FrameCumulative(sorted, palette);
  }
}
