/**
 * The static configuration of the abatement curve (utils/utils.py): the
 * subsectors offered per sector (`abatement_subsector_options`), the colour
 * tables and the per-subsector reference lines of `define_color_lines`.
 */
module ColorLines {
  import opened Wrappers
  import opened Regions

  /** `abatement_subsector_options`, in the order of the source's dictionary. */
  const AbatementSubsectorOptions: seq<(string, seq<string>)> := [
    ("agriculture", ["crop-residues", "cropland-fires", "enteric-fermentation-cattle-operation",
      "enteric-fermentation-cattle-pasture", "manure-applied-to-soils", "manure-left-on-pasture-cattle",
      "manure-management-cattle-operation", "rice-cultivation", "synthetic-fertilizer-application"]),
    ("buildings", ["non-residential-onsite-fuel-usage", "residential-onsite-fuel-usage"]),
    ("forestry-and-land-use", ["forest-land-clearing", "forest-land-degradation", "forest-land-fires",
      "net-forest-land", "net-shrubgrass", "net-wetland", "removals", "shrubgrass-fires",
      "water-reservoirs", "wetland-fires"]),
    ("fossil-fuel-operations", ["coal-mining", "oil-and-gas-production", "oil-and-gas-refining",
      "oil-and-gas-transport"]),
    ("manufacturing", ["aluminum", "cement", "chemicals", "food-beverage-tobacco", "glass",
      "iron-and-steel", "lime", "other-chemicals", "other-manufacturing", "other-metals",
      "petrochemical-steam-cracking", "pulp-and-paper", "textiles-leather-apparel"]),
    ("mineral-extraction", ["bauxite-mining", "copper-mining", "iron-mining"]),
    ("power", ["electricity-generation"]),
    ("transportation", ["domestic-aviation", "domestic-shipping", "international-aviation",
      "international-shipping", "road-transportation"]),
    ("waste", ["solid-waste-disposal"])
  ]

  /** The subsector lists of the given sectors, concatenated in order. */
  function Flatten(options: seq<(string, seq<string>)>): (r: seq<string>)
    ensures forall s :: s in r <==> exists i :: 0 <= i < |options| && s in options[i].1
  {
    if options == [] then []
    else
      var rest := Flatten(options[1..]);
      assert forall i :: 1 <= i < |options| ==> options[i] == options[1..][i - 1];
      options[0].1 + rest
  }

  /** Every subsector offered on the abatement curve. */
  function AllSubsectors(): seq<string> {
    Flatten(AbatementSubsectorOptions)
  }

  /** Reference lines drawn for a subsector: line name -> y value. */
  type Lines = map<string, real>

  /** The outlier lines shown for the emissions-factor metric. */
  const EmissionsFactorOutliers: map<string, Lines> := map[
    "solid-waste-disposal" := map["more landfills above" := 1.0],
    "food-beverage-tobacco" := map["more facilities above" := 0.0000814059958583646]
  ]

  /** `{subsector: outlier_values.get(subsector, {}) for … in abatement_subsector_options …}` */
  function LinesFor(outliers: map<string, Lines>): map<string, Lines> {
    LinesOver(AllSubsectors(), outliers)
  }

  /** One entry per listed subsector: its outlier lines, or none. */
  function LinesOver(subsectors: seq<string>, outliers: map<string, Lines>): (m: map<string, Lines>)
    ensures m.Keys == set s | s in subsectors
  {
    map s | s in subsectors :: if s in outliers then outliers[s] else map[]
  }

  /** The colour of each value of each colouring column: `dict_color`. */
  const ColorTable: map<string, map<string, string>> := map[
    "unfccc_annex" := map["Annex1" := "#407076", "Non-Annex1" := "#FBBA1A"],
    "em_finance" := map["Developed Markets" := "#407076", "Emerging Markets" := "#FBBA1A"],
    "developed_un" := map["Global North" := "#407076", "Global South" := "#FBBA1A"],
    "asset_type" := map["Smelting" := "#407076", "Refinery" := "#FBBA1A"],
    "continent" := map["Europe" := "#4878A8", "North America" := "#6D4DA8", "Asia" := "#FBBA1A",
      "Africa" := "#C75B39", "South America" := "#4C956C", "Oceania" := "#91643A",
      "Antarctica" := "#D3D3D3", "Unknown/Unlisted" := "#9E9C9C"],
    "sector" := map["forestry" := "#E8516C", "manufacturing" := "#9554FF",
      "fossil-fuel-operation" := "#FF6F42", "waste" := "#BBD421", "transportation" := "#FBBA1A",
      "agriculture" := "#0BCF42", "buildings" := "#03A0E3", "fluorinated-gas" := "#B6B4B4",
      "mineral" := "#4380F5", "power" := "#407076"],
    "background" := map["background0" := "#EBE6E6", "background1" := "#D9D4D4",
      "background2" := "#556063", "background3" := "#444546"]
  ]

  /** What `define_color_lines` returns: `(dict_color, dict_lines)`. */
  datatype CurveStyle = CurveStyle(colors: map<string, map<string, string>>, lines: map<string, Lines>)

  /** The three metrics for which `define_color_lines` assigns `dict_lines`. */
  predicate SupportedMetric(metric: string) {
    metric == "emissions_factor" || metric == "asset_reduction_potential" || metric == "net_reduction_potential"
  }

  /**
   * `define_color_lines(metric)`. For any other metric the source reaches its
   * return with `dict_lines` unassigned and raises; that is None here.
   */
  function DefineColorLines(metric: string): Option<CurveStyle> {
    if metric == "emissions_factor" then Some(CurveStyle(ColorTable, LinesFor(EmissionsFactorOutliers)))
    else if metric == "asset_reduction_potential" || metric == "net_reduction_potential" then
      Some(CurveStyle(ColorTable, LinesFor(map[])))
    else None
  }

  /** For each supported metric there is a line entry for every offered subsector and no other key. */
  lemma DefineColorLinesCoversSubsectors(metric: string)
    ensures DefineColorLines(metric).Some? <==> SupportedMetric(metric)
    ensures SupportedMetric(metric) ==>
      DefineColorLines(metric).value.lines.Keys == set s | s in AllSubsectors()
  {
    var subs := AllSubsectors();
    if metric == "emissions_factor" {
      assert DefineColorLines(metric).value.lines == LinesOver(subs, EmissionsFactorOutliers);
    } else if SupportedMetric(metric) {
      assert DefineColorLines(metric).value.lines == LinesOver(subs, map[]);
    }
  }

  /**
   * For the emissions-factor metric only solid-waste-disposal and
   * food-beverage-tobacco have reference lines; for the other two metrics none has.
   */
  lemma OutlierLinesOnlyWhereListed(metric: string, subsector: string)
    requires SupportedMetric(metric)
    requires subsector in AllSubsectors()
    ensures var lines := DefineColorLines(metric).value.lines;
      subsector in lines &&
      (lines[subsector] != map[] <==>
        metric == "emissions_factor" && subsector in {"solid-waste-disposal", "food-beverage-tobacco"})
  {
    if metric == "emissions_factor" {
      EmissionsFactorLines(subsector);
    } else {
      assert DefineColorLines(metric).value.lines == LinesOver(AllSubsectors(), map[]);
      LinesOverEntry(AllSubsectors(), map[], subsector);
    }
  }

  lemma EmissionsFactorLines(subsector: string)
    requires subsector in AllSubsectors()
    ensures var lines := DefineColorLines("emissions_factor").value.lines;
      subsector in lines &&
      (lines[subsector] != map[] <==> subsector in {"solid-waste-disposal", "food-beverage-tobacco"})
  {
    LinesOverEntry(AllSubsectors(), EmissionsFactorOutliers, subsector);
    OutlierEntry(subsector);
  }

  lemma OutlierEntry(subsector: string)
    ensures (if subsector in EmissionsFactorOutliers then EmissionsFactorOutliers[subsector] else map[]) != map[]
        <==> subsector in {"solid-waste-disposal", "food-beverage-tobacco"}
  {
    if subsector == "solid-waste-disposal" {
      assert "more landfills above" in EmissionsFactorOutliers[subsector];
    } else if subsector == "food-beverage-tobacco" {
      assert "more facilities above" in EmissionsFactorOutliers[subsector];
    }
  }

  lemma LinesOverEntry(subsectors: seq<string>, outliers: map<string, Lines>, subsector: string)
    requires subsector in subsectors
    ensures subsector in LinesOver(subsectors, outliers)
    ensures LinesOver(subsectors, outliers)[subsector] == if subsector in outliers then outliers[subsector] else map[]
  {
  }

  /** The two listed subsectors are among those offered. */
  lemma OutlierSubsectorsAreOffered()
    ensures EmissionsFactorOutliers.Keys <= set s | s in AllSubsectors()
  {
    SolidWasteOffered();
    FoodBeverageOffered();
    KeysOffered(EmissionsFactorOutliers.Keys, AllSubsectors());
  }

  lemma KeysOffered(keys: set<string>, subsectors: seq<string>)
    requires keys == {"solid-waste-disposal", "food-beverage-tobacco"}
    requires "solid-waste-disposal" in subsectors && "food-beverage-tobacco" in subsectors
    ensures keys <= set s | s in subsectors
  {
  }

  lemma SolidWasteOffered()
    ensures "solid-waste-disposal" in AllSubsectors()
  {
    var options := AbatementSubsectorOptions;
    assert "solid-waste-disposal" in options[8].1;
    InFlatten(options, 8, "solid-waste-disposal");
  }

  lemma FoodBeverageOffered()
    ensures "food-beverage-tobacco" in AllSubsectors()
  {
    var options := AbatementSubsectorOptions;
    assert "food-beverage-tobacco" in options[4].1;
    InFlatten(options, 4, "food-beverage-tobacco");
  }

  lemma InFlatten(options: seq<(string, seq<string>)>, i: nat, s: string)
    requires i < |options| && s in options[i].1
    ensures s in Flatten(options)
  {
  }

  /**
   * Every label that `relabel_regions` writes into a colouring column has a
   * colour in that column's table, so the curve's colour lookup finds it.
   */
  lemma RelabelledValuesHaveColours()
    ensures forall i, c :: 0 <= i < |RelabelTable| && c in RelabelTable[i].1 ==>
      RelabelTable[i].0 in ColorTable &&
      RelabelTable[i].1[c].TextCell? && RelabelTable[i].1[c].text in ColorTable[RelabelTable[i].0]
  {
    forall i, c | 0 <= i < |RelabelTable| && c in RelabelTable[i].1
      ensures RelabelTable[i].0 in ColorTable &&
        RelabelTable[i].1[c].TextCell? && RelabelTable[i].1[c].text in ColorTable[RelabelTable[i].0]
    {
      if i == 0 {
        assert c == FlagCell(true) || c == FlagCell(false);
      } else if i == 1 {
        assert c == FlagCell(true) || c == FlagCell(false);
      } else if i == 2 {
        assert c == FlagCell(true) || c == FlagCell(false);
      } else {
        assert c == TextCell("Unlisted");
      }
    }
  }
}
