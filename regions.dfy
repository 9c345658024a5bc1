/**
 * Region selection helpers of utils/utils.py: which column and value a region
 * dropdown choice filters on (`map_region_condition`), whether a choice is a
 * single country (`is_country`), and the relabelling of region flag columns
 * (`relabel_regions`).
 */
module Regions {
  import opened Wrappers

  /** The value a region filter compares its column with. */
  datatype FilterValue = Flag(flag: bool) | Name(name: string) | Names(names: seq<string>)

  /** `{'column_name': …, 'column_value': …}` */
  datatype RegionCondition = RegionCondition(column: string, value: FilterValue)

  const Continents: seq<string> :=
    ["Africa", "Antarctica", "Asia", "Europe", "North America", "Oceania", "South America"]

  /** The region groups and the boolean column each one selects on. */
  const RegionMapping: map<string, RegionCondition> := map[
    "EU" := RegionCondition("eu", Flag(true)),
    "OECD" := RegionCondition("oecd", Flag(true)),
    "Non-OECD" := RegionCondition("oecd", Flag(false)),
    "UNFCCC Annex" := RegionCondition("unfccc_annex", Flag(true)),
    "UNFCCC Non-Annex" := RegionCondition("unfccc_annex", Flag(false)),
    "Global North" := RegionCondition("developed_un", Flag(true)),
    "Global South" := RegionCondition("developed_un", Flag(false)),
    "Developed Markets" := RegionCondition("em_finance", Flag(false)),
    "Emerging Markets" := RegionCondition("em_finance", Flag(true))
  ]

  /** The two spellings of the United States in the country data. */
  const UnitedStatesAliases: seq<string> := ["United States", "United States of America"]

  /** `map_region_condition`: None for 'Global', otherwise the column and value to filter on. */
  function MapRegionCondition(selection: string): Option<RegionCondition> {
    if selection == "Global" then None
    else if selection in Continents then Some(RegionCondition("continent", Name(selection)))
    else if selection in RegionMapping then Some(RegionMapping[selection])
    else if selection in UnitedStatesAliases then Some(RegionCondition("country_name", Names(UnitedStatesAliases)))
    else Some(RegionCondition("country_name", Name(selection)))
  }

  /** The names of the region groups, in the order of the source's dictionary. */
  const GroupNames: seq<string> := ["EU", "OECD", "Non-OECD", "UNFCCC Annex", "UNFCCC Non-Annex",
    "Global North", "Global South", "Developed Markets", "Emerging Markets"]

  /** The selections `is_country` lists as not being countries. */
  const NonCountries: seq<string> := [
    "Global", "Africa", "Antarctica", "Asia", "Europe", "North America", "Oceania", "South America",
    "EU", "OECD", "Non-OECD", "UNFCCC Annex", "UNFCCC Non-Annex", "Global North", "Global South",
    "Developed Markets", "Emerging Markets"
  ]

  /** `is_country` */
  function IsCountry(selection: string): bool {
    selection !in NonCountries
  }

  /** The list in `is_country` is exactly 'Global', then the continents, then the region groups. */
  lemma NonCountriesAreTheRegionChoices()
    ensures NonCountries == ["Global"] + Continents + GroupNames
    ensures RegionMapping.Keys == set g | g in GroupNames
  {
  }

  /** A selection is a country exactly when its filter is on the country_name column. */
  lemma IsCountryIffCountryColumn(selection: string)
    ensures IsCountry(selection) <==>
      MapRegionCondition(selection).Some? && MapRegionCondition(selection).value.column == "country_name"
  {
    NonCountriesAreTheRegionChoices();
    assert selection in NonCountries <==>
      selection == "Global" || selection in Continents || selection in GroupNames;
    if selection in RegionMapping {
      var column := RegionMapping[selection].column;
      assert column in {"eu", "oecd", "unfccc_annex", "developed_un", "em_finance"};
      assert column != "country_name" by {
        assert column[0] != 'c' || |column| != 12;
      }
    }
  }

  /**
   * 'Global' has no filter; the region groups filter on a boolean column;
   * continents filter on their own name; either United States spelling
   * selects both; any other selection is taken as a country name.
   */
  lemma RegionConditionShapes(selection: string)
    ensures MapRegionCondition(selection).None? <==> selection == "Global"
    ensures selection in RegionMapping ==>
      MapRegionCondition(selection).Some? && MapRegionCondition(selection).value.value.Flag? &&
      MapRegionCondition(selection).value.column in {"eu", "oecd", "unfccc_annex", "developed_un", "em_finance"}
    ensures selection in Continents ==>
      MapRegionCondition(selection) == Some(RegionCondition("continent", Name(selection)))
    ensures selection in UnitedStatesAliases ==>
      MapRegionCondition(selection) == Some(RegionCondition("country_name", Names(UnitedStatesAliases)))
    ensures (selection != "Global" && selection !in Continents && selection !in RegionMapping &&
             selection !in UnitedStatesAliases) ==>
      MapRegionCondition(selection) == Some(RegionCondition("country_name", Name(selection)))
  {
    RegionConditionGlobal(selection);
    RegionConditionGroups(selection);
    RegionConditionNames(selection);
  }

  lemma RegionConditionGlobal(selection: string)
    ensures MapRegionCondition(selection).None? <==> selection == "Global"
  {
  }

  lemma RegionConditionGroups(selection: string)
    ensures selection in RegionMapping ==>
      MapRegionCondition(selection).Some? && MapRegionCondition(selection).value.value.Flag? &&
      MapRegionCondition(selection).value.column in {"eu", "oecd", "unfccc_annex", "developed_un", "em_finance"}
  {
  }

  lemma RegionConditionNames(selection: string)
    ensures selection in Continents ==>
      MapRegionCondition(selection) == Some(RegionCondition("continent", Name(selection)))
    ensures selection in UnitedStatesAliases ==>
      MapRegionCondition(selection) == Some(RegionCondition("country_name", Names(UnitedStatesAliases)))
    ensures (selection != "Global" && selection !in Continents && selection !in RegionMapping &&
             selection !in UnitedStatesAliases) ==>
      MapRegionCondition(selection) == Some(RegionCondition("country_name", Name(selection)))
  {
  }

  /** A cell of a region column: a boolean flag, a text value, or missing. */
  datatype Cell = FlagCell(flag: bool) | TextCell(text: string) | Missing

  /** `dict_relabel` of `relabel_regions`: per column, the values to replace. */
  const RelabelTable: seq<(string, map<Cell, Cell>)> := [
    ("unfccc_annex", map[FlagCell(true) := TextCell("Annex1"), FlagCell(false) := TextCell("Non-Annex1")]),
    ("em_finance", map[FlagCell(true) := TextCell("Emerging Markets"), FlagCell(false) := TextCell("Developed Markets")]),
    ("developed_un", map[FlagCell(true) := TextCell("Global North"), FlagCell(false) := TextCell("Global South")]),
    ("continent", map[TextCell("Unlisted") := TextCell("Unknown/Unlisted")])
  ]

  /** `Series.replace(mapping)`: every cell that is a key of the mapping becomes its value. */
  function Replace(column: seq<Cell>, mapping: map<Cell, Cell>): (r: seq<Cell>)
    ensures |r| == |column|
    ensures forall i :: 0 <= i < |column| ==>
      r[i] == if column[i] in mapping then mapping[column[i]] else column[i]
  {
    if column == [] then [] else [if column[0] in mapping then mapping[column[0]] else column[0]] + Replace(column[1..], mapping)
  }

  /** The columns after applying the entries of the relabel table in order. */
  function RelabelWith(columns: map<string, seq<Cell>>, entries: seq<(string, map<Cell, Cell>)>): map<string, seq<Cell>> {
    if entries == [] then columns
    else
      var (col, mapping) := entries[0];
      var next := if col in columns then columns[col := Replace(columns[col], mapping)] else columns;
      RelabelWith(next, entries[1..])
  }

  /** A data frame reduced to what `relabel_regions` touches: its named columns of cells. */
  class RegionFrame {
    var columns: map<string, seq<Cell>>

    constructor (columns: map<string, seq<Cell>>)
      ensures this.columns == columns
    {
      this.columns := columns;
    }

    /** `relabel_regions`: replaces, in place, the flag values of the present region columns by their labels. */
    method RelabelRegions()
      modifies this
      ensures columns == RelabelWith(old(columns), RelabelTable)
    {
      var k := 0;
      while k < |RelabelTable|
        invariant 0 <= k <= |RelabelTable|
        invariant RelabelWith(old(columns), RelabelTable) == RelabelWith(columns, RelabelTable[k..])
      {
        var (col, mapping) := RelabelTable[k];
        if col in columns {
          columns := columns[col := Replace(columns[col], mapping)];
        }
        assert RelabelTable[k..][1..] == RelabelTable[k + 1..];
        k := k + 1;
      }
    }
  }

  /**
   * What relabelling does to a frame: the same column names, every column the
   * same length, columns outside the table untouched, and each table column
   * replaced through its own mapping.
   */
  lemma {:induction false} RelabelEffect(columns: map<string, seq<Cell>>, entries: seq<(string, map<Cell, Cell>)>)
    requires forall i, j :: 0 <= i < j < |entries| ==> entries[i].0 != entries[j].0
    ensures RelabelWith(columns, entries).Keys == columns.Keys
    ensures forall c :: c in columns ==> |RelabelWith(columns, entries)[c]| == |columns[c]|
    ensures forall c :: c in columns && (forall e :: e in entries ==> e.0 != c) ==>
      RelabelWith(columns, entries)[c] == columns[c]
    ensures forall i :: 0 <= i < |entries| && entries[i].0 in columns ==>
      RelabelWith(columns, entries)[entries[i].0] == Replace(columns[entries[i].0], entries[i].1)
  {
    if entries != [] {
      var (col, mapping) := entries[0];
      var next := if col in columns then columns[col := Replace(columns[col], mapping)] else columns;
      RelabelEffect(next, entries[1..]);
      forall i | 1 <= i < |entries| && entries[i].0 in columns
        ensures RelabelWith(columns, entries)[entries[i].0] == Replace(columns[entries[i].0], entries[i].1)
      {
        assert entries[1..][i - 1] == entries[i];
      }
      forall c | c in columns && (forall e :: e in entries ==> e.0 != c)
        ensures RelabelWith(columns, entries)[c] == columns[c]
      {
        assert entries[0] in entries;
        forall e | e in entries[1..] ensures e.0 != c {
          assert e in entries;
        }
      }
    }
  }

  /** No replacement value is itself a value that the same mapping replaces. */
  predicate Settled(mapping: map<Cell, Cell>) {
    forall c :: c in mapping ==> mapping[c] !in mapping
  }

  /** Every name in entries is different and every mapping is settled. */
  predicate WellFormedTable(entries: seq<(string, map<Cell, Cell>)>) {
    && (forall i, j :: 0 <= i < j < |entries| ==> entries[i].0 != entries[j].0)
    && (forall i :: 0 <= i < |entries| ==> Settled(entries[i].1))
  }

  /** Replacing through a settled mapping twice is replacing once. */
  lemma ReplaceSettled(column: seq<Cell>, mapping: map<Cell, Cell>)
    requires Settled(mapping)
    ensures Replace(Replace(column, mapping), mapping) == Replace(column, mapping)
  {
  }

  /** Relabelling twice with a well-formed table is relabelling once. */
  lemma RelabelWithIdempotent(columns: map<string, seq<Cell>>, entries: seq<(string, map<Cell, Cell>)>)
    requires WellFormedTable(entries)
    ensures RelabelWith(RelabelWith(columns, entries), entries) == RelabelWith(columns, entries)
  {
    var once := RelabelWith(columns, entries);
    var twice := RelabelWith(once, entries);
    RelabelEffect(columns, entries);
    RelabelEffect(once, entries);
    forall c | c in twice ensures twice[c] == once[c] {
      if i :| 0 <= i < |entries| && entries[i].0 == c {
        ReplaceSettled(columns[c], entries[i].1);
      } else {
        assert forall e :: e in entries ==> e.0 != c;
      }
    }
  }

  /** `relabel_regions` changes nothing when applied to its own output. */
  lemma RelabelIdempotent(columns: map<string, seq<Cell>>)
    ensures RelabelWith(RelabelWith(columns, RelabelTable), RelabelTable) == RelabelWith(columns, RelabelTable)
  {
    assert "unfccc_annex" != "em_finance" && "unfccc_annex" != "continent" && "em_finance" != "continent";
    assert "developed_un" != "em_finance" && "developed_un" != "continent";
    assert "unfccc_annex"[0] != "developed_un"[0];
    assert TextCell("Unknown/Unlisted") != TextCell("Unlisted") by {
      assert |"Unknown/Unlisted"| != |"Unlisted"|;
    }
    RelabelWithIdempotent(columns, RelabelTable);
  }
}
