/**
 * The text shown in a metric card by `bordered_metric` and
 * `bordered_metric_abatement` (utils/utils.py), which share it: the display
 * value and its tooltip, before HTML escaping.
 */
module Display {
  import opened Wrappers
  import opened Text

  /** The card's `value`: a Python list of strings or anything else, already rendered by `str`. */
  datatype MetricValue = ListValue(items: seq<string>) | Scalar(text: string)

  /** The card's value line and its tooltip. */
  datatype Card = Card(display: string, tooltip: string)

  /** The " +k more" suffix. */
  function More(k: nat): string {
    " +" + NatToString(k) + " more"
  }

  /** Python truthiness of `total_options_in_scope` (None and 0 are false). */
  predicate Truthy(total: Option<int>) {
    total.Some? && total.value != 0
  }

  /** The card of a metric; `total` is `total_options_in_scope`, `tooltipValue` is `tooltip_value`. */
  function CardText(value: MetricValue, total: Option<int>, tooltipValue: Option<string>): Card {
    match value
    case ListValue(items) =>
      var tooltip := Join(items, ", ");
      if Truthy(total) && |items| == total.value then
        Card("All (" + NatToString(|items|) + ")", tooltip)
      else if TotalLength(items) > 19 then
        Card(items[0] + More(|items| - 1), tooltip)
      else
        Card(Join(items[..if |items| < 2 then |items| else 2], ", ")
             + (if |items| > 2 then More(|items| - 2) else ""), tooltip)
    case Scalar(text) =>
      Card(text, if tooltipValue.Some? && tooltipValue.value != "" then tooltipValue.value else text)
  }

  lemma {:induction false} TotalLengthOfEmpty(items: seq<string>)
    ensures TotalLength(items) > 0 ==> items != []
  {
  }

  /** A list matching a truthy total shows "All (n)"; otherwise some items are written out. */
  predicate ShowsAll(items: seq<string>, total: Option<int>) {
    Truthy(total) && |items| == total.value
  }

  /** A list as long as a truthy total shows "All (n)", whatever its items. */
  lemma CompleteListShowsAll(items: seq<string>, total: Option<int>)
    requires ShowsAll(items, total)
    ensures CardText(ListValue(items), total, None).display == "All (" + NatToString(|items|) + ")"
    ensures CardText(ListValue(items), total, None).tooltip == Join(items, ", ")
  {
  }

  /**
   * Outside the "All (n)" case the value line writes out the first k items
   * (k <= 2, and k >= 1 unless there are none), joined by ", ", and the
   * suffix, when present, counts exactly the items not written out. A
   * missing suffix means every item was written out.
   */
  lemma {:induction false} ListDisplayShape(items: seq<string>, total: Option<int>)
    requires !ShowsAll(items, total)
    ensures (exists k :: 0 <= k <= |items| && k <= 2 && (items != [] ==> k >= 1) &&
               (CardText(ListValue(items), total, None).display == Join(items[..k], ", ") + More(|items| - k) ||
                (k == |items| && CardText(ListValue(items), total, None).display == Join(items[..k], ", "))))
  {
    var display := CardText(ListValue(items), total, None).display;
    if TotalLength(items) > 19 {
      TotalLengthOfEmpty(items);
      assert items[..1] == [items[0]];
      assert display == Join(items[..1], ", ") + More(|items| - 1);
    } else {
      var k := if |items| < 2 then |items| else 2;
      assert display == Join(items[..k], ", ") + (if |items| > 2 then More(|items| - 2) else "");
      assert 0 <= k <= |items| && k <= 2 && (items != [] ==> k >= 1);
    }
  }

  /** The value line of a list starts with its first item unless it shows "All (n)". */
  lemma ListDisplayStartsWithFirstItem(items: seq<string>, total: Option<int>)
    requires !ShowsAll(items, total) && items != []
    ensures var display := CardText(ListValue(items), total, None).display;
      |items[0]| <= |display| && display[..|items[0]|] == items[0]
  {
    if TotalLength(items) <= 19 && |items| >= 2 {
      assert items[..2] == [items[0], items[1]];
      assert items[..2][1..] == [items[1]];
    }
  }

  /** A list's tooltip names every item, whatever the value line shows; tooltip_value is ignored. */
  lemma ListTooltipNamesAll(items: seq<string>, total: Option<int>, tooltipValue: Option<string>)
    ensures CardText(ListValue(items), total, tooltipValue).tooltip == Join(items, ", ")
    ensures CardText(ListValue(items), total, tooltipValue).display
         == CardText(ListValue(items), total, None).display
  {
  }

  /** A single item longer than 19 characters is shown as itself followed by " +0 more". */
  lemma SingleLongItemShowsZeroMore(item: string, total: Option<int>)
    requires |item| > 19 && total != Some(1)
    ensures CardText(ListValue([item]), total, None).display == item + " +0 more"
  {
    assert TotalLength([item]) == |item| + TotalLength([]);
    assert NatToString(0) == "0";
  }

  /** A scalar is shown as itself; its tooltip is tooltip_value when that is a non-empty string. */
  lemma ScalarCard(text: string, total: Option<int>, tooltipValue: Option<string>)
    ensures CardText(Scalar(text), total, tooltipValue).display == text
    ensures CardText(Scalar(text), total, tooltipValue).tooltip
         == (if tooltipValue == None || tooltipValue == Some("") then text else tooltipValue.value)
  {
  }
}
