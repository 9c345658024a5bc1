/**
 * The numbers behind `get_reduction_induction_json` (utils/utils.py): for each
 * sector row of the stacked-bar frame, the inductions it receives, their net
 * total and the colour that total is shown in, and the three core values.
 * The hover HTML and the short number formatting are not modelled.
 */
module InductionJson {
  import opened Seqs

  /** A numeric cell of a pandas frame: None, NaN or a number. */
  datatype Num = Null | NaN | Val(v: real)

  /** A row of the stacked-bar frame: its sector and the numeric columns it has. */
  datatype StackedRow = StackedRow(sector: string, columns: map<string, Num>)

  /** A row of the induced-emissions frame. */
  datatype InducedRow = InducedRow(receiving: string, inducing: string, emissions: Num)

  /** One entry of `inductions`. */
  datatype Induction = Induction(inducing: string, amount: real)

  datatype Tint = Red | Green

  /** One summary entry; netInductions and netColour are what the hover text shows for net inductions. */
  datatype SectorSummary = SectorSummary(
    sector: string,
    assetReductions: Num,
    reductionPotential: Num,
    staticEmissions: Num,
    inductions: seq<Induction>,
    netInductions: real,
    netColour: Tint)

  /** `row.get(col, 0) or 0`: a missing column or None gives 0; NaN is truthy and stays. */
  function CoreValue(row: StackedRow, col: string): (r: Num)
    ensures r != Null
    ensures r == NaN <==> col in row.columns && row.columns[col] == NaN
    ensures r.Val? && r.v != 0.0 ==> col in row.columns && row.columns[col] == r
  {
    if col !in row.columns then Val(0.0)
    else match row.columns[col]
      case Null => Val(0.0)
      case NaN => NaN
      case Val(x) => Val(x)
  }

  /** An induced row counts for the sector when it is received there and its value is neither None nor NaN. */
  predicate Counts(sector: string, ind: InducedRow) {
    ind.receiving == sector && ind.emissions.Val?
  }

  /** `inductions_list` for the sector, built in the order of the induced frame. */
  function InductionsFor(sector: string, induced: seq<InducedRow>): (r: seq<Induction>)
    ensures |r| <= |induced|
  {
    if induced == [] then []
    else
      var last := induced[|induced| - 1];
      InductionsFor(sector, induced[..|induced| - 1])
        + (if Counts(sector, last) then [Induction(last.inducing, last.emissions.v)] else [])
  }

  /** The induced rows that count for the sector, in order. */
  function CountingRows(sector: string, induced: seq<InducedRow>): (r: seq<InducedRow>)
    ensures forall x :: x in r <==> x in induced && Counts(sector, x)
  {
    if induced == [] then []
    else
      var rest := CountingRows(sector, induced[..|induced| - 1]);
      assert induced == induced[..|induced| - 1] + [induced[|induced| - 1]];
      var last := induced[|induced| - 1];
      rest + (if Counts(sector, last) then [last] else [])
  }

  function AsInduction(ind: InducedRow): Induction
    requires ind.emissions.Val?
  {
    Induction(ind.inducing, ind.emissions.v)
  }

  /**
   * The inductions are exactly the counting rows, in order, each as its
   * inducing sector and value: no other row contributes and none is lost.
   */
  lemma {:induction false} InductionsAreCountingRows(sector: string, induced: seq<InducedRow>)
    ensures var rows := CountingRows(sector, induced);
      var r := InductionsFor(sector, induced);
      |r| == |rows| && forall k :: 0 <= k < |r| ==> rows[k].emissions.Val? && r[k] == AsInduction(rows[k])
  {
    if induced != [] {
      InductionsAreCountingRows(sector, induced[..|induced| - 1]);
    }
  }

  function AmountOf(i: Induction): real { i.amount }

  /** The value an induced row contributes to the sector's net inductions. */
  function Contribution(sector: string): InducedRow -> real {
    ind => if Counts(sector, ind) then ind.emissions.v else 0.0
  }

  /** `total_inductions`: the sum of the listed values. */
  function NetInductions(sector: string, induced: seq<InducedRow>): real {
    Sum(InductionsFor(sector, induced), AmountOf)
  }

  /**
   * The net total adds up every induced row received by the sector whose
   * value is a number, and nothing else.
   */
  lemma {:induction false} NetInductionsIsContributionSum(sector: string, induced: seq<InducedRow>)
    ensures NetInductions(sector, induced) == Sum(induced, Contribution(sector))
  {
    if induced != [] {
      var init := induced[..|induced| - 1];
      var last := induced[|induced| - 1];
      NetInductionsIsContributionSum(sector, init);
      var tail := if Counts(sector, last) then [Induction(last.inducing, last.emissions.v)] else [];
      SumAppend(InductionsFor(sector, init), tail, AmountOf);
      assert induced == init + [last];
      SumAppend(init, [last], Contribution(sector));
    }
  }

  /**
   * The net-inductions figure is red when there are inductions and they sum
   * to zero or more, green when they sum below zero, and a green 0 when the
   * sector receives none.
   */
  function NetColour(inductions: seq<Induction>, total: real): (t: Tint)
    ensures t == Red <==> inductions != [] && total >= 0.0
  {
    if inductions == [] then Green else if total >= 0.0 then Red else Green
  }

  /** The colour of one listed induction: red when it adds emissions. */
  function InductionColour(i: Induction): (t: Tint)
    ensures t == Red <==> i.amount >= 0.0
  {
    if i.amount >= 0.0 then Red else Green
  }

  /** The summary of one sector row. */
  function Summarize(row: StackedRow, induced: seq<InducedRow>): SectorSummary {
    var inductions := InductionsFor(row.sector, induced);
    var total := Sum(inductions, AmountOf);
    SectorSummary(
      row.sector,
      CoreValue(row, "emissions_reduced_at_asset"),
      CoreValue(row, "emissions_reduction_potential"),
      CoreValue(row, "static_emissions_q"),
      inductions,
      total,
      NetColour(inductions, total))
  }

  /** The nested loops of `get_reduction_induction_json`: one summary per sector row, in order. */
  method GetReductionInductionJson(rows: seq<StackedRow>, induced: seq<InducedRow>)
    returns (summary: seq<SectorSummary>)
    ensures |summary| == |rows|
    ensures forall i :: 0 <= i < |rows| ==> summary[i] == Summarize(rows[i], induced)
  {
    summary := [];
    for i := 0 to |rows|
      invariant |summary| == i
      invariant forall k :: 0 <= k < i ==> summary[k] == Summarize(rows[k], induced)
    {
      var sector := rows[i].sector;
      var inductions: seq<Induction> := [];
      var total := 0.0;
      for j := 0 to |induced|
        invariant inductions == InductionsFor(sector, induced[..j])
      {
        assert induced[..j + 1][..j] == induced[..j];
        var ind := induced[j];
        if ind.receiving == sector && ind.emissions.Val? {
          inductions := inductions + [Induction(ind.inducing, ind.emissions.v)];
        }
      }
      assert induced[..|induced|] == induced;
      for j := 0 to |inductions|
        invariant total == Sum(inductions[..j], AmountOf)
      {
        assert inductions[..j + 1] == inductions[..j] + [inductions[j]];
        SumAppend(inductions[..j], [inductions[j]], AmountOf);
        total := total + inductions[j].amount;
      }
      assert inductions[..|inductions|] == inductions;
      var colour := if inductions == [] then Green else if total >= 0.0 then Red else Green;
      summary := summary + [SectorSummary(
        sector,
        CoreValue(rows[i], "emissions_reduced_at_asset"),
        CoreValue(rows[i], "emissions_reduction_potential"),
        CoreValue(rows[i], "static_emissions_q"),
        inductions, total, colour)];
    }
  }
}
