/**
 * `format_dropdown_options` (utils/utils.py): turns raw subsector slugs into
 * display labels, making a repeated label unique by appending the raw value,
 * and returns the labels together with the label -> raw mapping.
 */
module Dropdown {
  import opened Wrappers
  import opened Text

  /** The words kept in lower case when the caller passes none. */
  const DefaultLowercaseWords: set<string> := {"and"}

  /** `lowercase_words`, with None replaced by the default. */
  function LowercaseWords(given: Option<set<string>>): set<string> {
    given.GetOr(DefaultLowercaseWords)
  }

  /** One word of a label: lower-cased if its lower case is listed, capitalised otherwise. */
  function FormatWord(word: string, lowercaseWords: set<string>): string {
    if Lower(word) in lowercaseWords then Lower(word) else Capitalize(word)
  }

  function FormatWords(words: seq<string>, lowercaseWords: set<string>): (r: seq<string>)
    ensures |r| == |words|
    ensures forall i :: 0 <= i < |words| ==> r[i] == FormatWord(words[i], lowercaseWords)
  {
    if words == [] then [] else [FormatWord(words[0], lowercaseWords)] + FormatWords(words[1..], lowercaseWords)
  }

  /** `format_label`: hyphens become spaces, the words are formatted and joined by single spaces. */
  function FormatLabel(value: string, lowercaseWords: set<string>): string {
    Join(FormatWords(SplitWords(ReplaceChar(value, '-', ' ')), lowercaseWords), " ")
  }

  /** The loop state: the labels so far, the mapping, and the labels already seen. */
  datatype Labels = Labels(options: seq<string>, mapping: map<string, string>, seen: set<string>)

  /** `format_label` with the word list fixed, as a function value. */
  function Formatter(lowercaseWords: set<string>): string -> string {
    s => FormatLabel(s, lowercaseWords)
  }

  /** The label given to raw: its formatted label, with " (raw)" appended when that label was seen before. */
  function LabelFor(raw: string, seen: set<string>, format: string -> string): string {
    var formatted := format(raw);
    if formatted in seen then formatted + " (" + raw + ")" else formatted
  }

  /** One iteration of the loop over the raw values. */
  function Step(st: Labels, raw: string, format: string -> string): Labels {
    var name := LabelFor(raw, st.seen, format);
    Labels(st.options + [name], st.mapping[name := raw], st.seen + {name})
  }

  /** The state after processing all of raws in order, each formatted by `format`. */
  function Run(raws: seq<string>, format: string -> string): Labels {
    if raws == [] then Labels([], map[], {})
    else Step(Run(raws[..|raws| - 1], format), raws[|raws| - 1], format)
  }

  /** The loop of `format_dropdown_options`, returning `(options, mapping)`. */
  method FormatDropdownOptions(raws: seq<string>, lowercaseWords: Option<set<string>>)
    returns (options: seq<string>, mapping: map<string, string>)
    ensures options == Run(raws, Formatter(LowercaseWords(lowercaseWords))).options
    ensures mapping == Run(raws, Formatter(LowercaseWords(lowercaseWords))).mapping
  {
    var words := LowercaseWords(lowercaseWords);
    var format := Formatter(words);
    var seen: set<string> := {};
    options := [];
    mapping := map[];
    for k := 0 to |raws|
      invariant Labels(options, mapping, seen) == Run(raws[..k], format)
    {
      var raw := raws[k];
      var formatted := FormatLabel(raw, words);
      assert formatted == format(raw);
      if formatted in seen {
        formatted := formatted + " (" + raw + ")";
      }
      seen := seen + {formatted};
      options := options + [formatted];
      mapping := mapping[formatted := raw];
      assert raws[..k + 1][..k] == raws[..k];
    }
    assert raws[..|raws|] == raws;
  }

  /** The loop keeps one label per raw value, and `seen` holds exactly the labels produced so far. */
  lemma {:induction false} RunSeen(raws: seq<string>, format: string -> string)
    ensures |Run(raws, format).options| == |raws|
    ensures Run(raws, format).seen == set x | x in Run(raws, format).options
  {
    if raws != [] {
      RunSeen(raws[..|raws| - 1], format);
    }
  }

  /** The labels of a prefix of the raw values are the same prefix of the labels. */
  lemma {:induction false} RunPrefix(raws: seq<string>, k: nat, format: string -> string)
    requires k <= |raws|
    ensures |Run(raws, format).options| == |raws|
    ensures Run(raws[..k], format).options == Run(raws, format).options[..k]
    decreases |raws|
  {
    RunSeen(raws, format);
    if k < |raws| {
      var front := raws[..|raws| - 1];
      RunPrefix(front, k, format);
      assert front[..k] == raws[..k];
      RunSeen(front, format);
      assert Run(raws, format).options[..|raws| - 1] == Run(front, format).options;
    } else {
      assert raws[..k] == raws;
    }
  }

  /** Label i, from the state before raw value i. */
  lemma RunLabelAt(raws: seq<string>, format: string -> string, i: nat)
    requires i < |raws|
    ensures |Run(raws, format).options| == |raws|
    ensures var plain := format(raws[i]);
      var all := Run(raws, format).options;
      all[i] == if plain in all[..i] then plain + " (" + raws[i] + ")" else plain
  {
    var all := Run(raws, format).options;
    var before := Run(raws[..i], format);
    RunPrefix(raws, i + 1, format);
    RunPrefix(raws, i, format);
    RunSeen(raws[..i], format);
    assert raws[..i + 1][..i] == raws[..i];
    assert Run(raws[..i + 1], format) == Step(before, raws[i], format);
    assert all[..i + 1] == before.options + [LabelFor(raws[i], before.seen, format)];
    assert all[i] == all[..i + 1][i];
  }

  /**
   * Label i is the formatted raw value i, with " (raw)" appended exactly when
   * that formatted label occurs among the labels before position i.
   */
  lemma RunLabels(raws: seq<string>, format: string -> string)
    ensures |Run(raws, format).options| == |raws|
    ensures forall i :: 0 <= i < |raws| ==>
      var plain := format(raws[i]);
      Run(raws, format).options[i]
        == if plain in Run(raws, format).options[..i] then plain + " (" + raws[i] + ")" else plain
  {
    RunSeen(raws, format);
    forall i | 0 <= i < |raws|
      ensures var plain := format(raws[i]);
        Run(raws, format).options[i]
          == if plain in Run(raws, format).options[..i] then plain + " (" + raws[i] + ")" else plain
    {
      RunLabelAt(raws, format, i);
    }
  }

  /** The mapping is defined on exactly the labels. */
  lemma {:induction false} RunMappingKeys(raws: seq<string>, format: string -> string)
    ensures forall l :: l in Run(raws, format).mapping <==> l in Run(raws, format).options
  {
    if raws != [] {
      RunMappingKeys(raws[..|raws| - 1], format);
    }
  }

  /** Each label maps to the raw value of its last occurrence. */
  lemma {:induction false} RunMappingLast(raws: seq<string>, format: string -> string)
    ensures |Run(raws, format).options| == |raws|
    ensures forall i :: 0 <= i < |raws| ==>
      Run(raws, format).options[i] in Run(raws, format).mapping &&
      ((forall j :: i < j < |raws| ==> Run(raws, format).options[j] != Run(raws, format).options[i])
        ==> Run(raws, format).mapping[Run(raws, format).options[i]] == raws[i])
  {
    RunSeen(raws, format);
    RunMappingKeys(raws, format);
    if raws != [] {
      var n := |raws|;
      var front := raws[..n - 1];
      RunMappingLast(front, format);
      var prev := Run(front, format).options;
      var all := Run(raws, format).options;
      assert all == prev + [all[n - 1]];
      forall i | 0 <= i < n && (forall j :: i < j < n ==> all[j] != all[i])
        ensures Run(raws, format).mapping[all[i]] == raws[i]
      {
        if i < n - 1 {
          assert all[i] == prev[i] && raws[i] == front[i];
          assert forall j :: i < j < n - 1 ==> prev[j] != prev[i] by {
            forall j | i < j < n - 1 ensures prev[j] != prev[i] {
              assert all[j] == prev[j];
            }
          }
        }
      }
    }
  }
}
