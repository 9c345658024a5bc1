/**
 * The text the demo queries build (utils/queries_demo.py): the quoted value
 * list spliced into every `IN (…)` clause and the asset label
 * `ISO: name (id)`, together with the parse that turns a chosen label back
 * into an asset id (tabs/tab05_abatement_curve_demo.py).
 */
module SqlText {
  import opened Wrappers
  import opened Seqs
  import opened Text

  /** `f"'{x}'"`. */
  function Quoted(x: string): string { "'" + x + "'" }

  /** `', '.join(f"'{x}'" for x in xs)`. */
  function QuoteList(xs: seq<string>): string {
    Join(Map(xs, Quoted), ", ")
  }

  predicate NoQuote(x: string) { '\'' !in x }

  /** The characters up to the first quote (all of x when there is none). */
  function UpToQuote(x: string): (r: string)
    ensures r <= x && NoQuote(r)
    ensures |r| < |x| ==> x[|r|] == '\''
  {
    if x == [] || x[0] == '\'' then [] else [x[0]] + UpToQuote(x[1..])
  }

  /** Reads a list in the form QuoteList writes; None when s is not in that form. */
  function ParseQuoteList(s: string): Option<seq<string>>
    decreases |s|
  {
    if s == [] then Some([])
    else if s[0] != '\'' then None
    else
      var item := UpToQuote(s[1..]);
      ParseAfterItem(item, s[1 + |item|..])
  }

  /** What follows a quoted item: its closing quote, then the end or ", " and more items. */
  function ParseAfterItem(item: string, rest: string): Option<seq<string>>
    decreases |rest|
  {
    if rest == [] then None
    else if rest == "'" then Some([item])
    else if |rest| >= 3 && rest[..3] == "', " then
      var tail := ParseQuoteList(rest[3..]);
      if tail.Some? && tail.value != [] then Some([item] + tail.value) else None
    else None
  }

  lemma UpToQuoteOfQuoted(x: string, t: string)
    requires NoQuote(x)
    ensures UpToQuote(x + "'" + t) == x
  {
    if x != [] {
      assert (x + "'" + t)[1..] == x[1..] + "'" + t;
      UpToQuoteOfQuoted(x[1..], t);
    } else {
      assert (x + "'" + t)[0] == '\'';
    }
  }

  lemma ParseSingle(x: string)
    requires NoQuote(x)
    ensures ParseQuoteList("'" + x + "'") == Some([x])
  {
    var s := "'" + x + "'";
    assert s[1..] == x + "'" + "";
    UpToQuoteOfQuoted(x, "");
    assert s[1 + |x|..] == "'";
  }

  lemma ParseStep(x: string, t: string, ys: seq<string>)
    requires NoQuote(x)
    requires ParseQuoteList(t) == Some(ys) && ys != []
    ensures ParseQuoteList("'" + x + "', " + t) == Some([x] + ys)
  {
    var s := "'" + x + "', " + t;
    assert s[1..] == x + "'" + (", " + t);
    UpToQuoteOfQuoted(x, ", " + t);
    var rest := s[1 + |x|..];
    assert rest == "', " + t;
    assert ParseQuoteList(s) == ParseAfterItem(x, rest);
    assert |rest| >= 3 && rest != "'";
    assert rest[..3] == "', " && rest[3..] == t;
  }

  lemma QuoteListCons(xs: seq<string>)
    requires |xs| >= 2
    ensures QuoteList(xs) == "'" + xs[0] + "', " + QuoteList(xs[1..])
  {
    assert Map(xs, Quoted)[1..] == Map(xs[1..], Quoted);
  }

  /**
   * When no element contains a quote, the list literal reads back as the
   * original list.
   */
  lemma {:induction false} QuoteListRoundTrip(xs: seq<string>)
    requires forall i :: 0 <= i < |xs| ==> NoQuote(xs[i])
    ensures ParseQuoteList(QuoteList(xs)) == Some(xs)
  {
    if |xs| == 1 {
      assert Map(xs, Quoted) == [Quoted(xs[0])];
      assert QuoteList(xs) == Quoted(xs[0]);
      ParseSingle(xs[0]);
      assert xs == [xs[0]];
    } else if |xs| >= 2 {
      QuoteListCons(xs);
      QuoteListRoundTrip(xs[1..]);
      ParseStep(xs[0], QuoteList(xs[1..]), xs[1..]);
      assert [xs[0]] + xs[1..] == xs;
    }
  }

  // ---------------------------------------------------------------------
  // The asset label and its parse.

  /** `iso3_country || ': ' || asset_name || ' (' || CAST(asset_id AS TEXT) || ')'`. */
  function AssetLabel(iso3: string, name: string, id: nat): string {
    iso3 + ": " + name + " (" + NatToString(id) + ")"
  }

  /** The number of leading digits of s. */
  function DigitRun(s: string): (n: nat)
    ensures n <= |s|
    ensures forall i :: 0 <= i < n ==> IsDigit(s[i])
    ensures n < |s| ==> !IsDigit(s[n])
  {
    if s == [] || !IsDigit(s[0]) then 0 else 1 + DigitRun(s[1..])
  }

  /** `\((\d+)\)` tried at position i: the digits' value when it matches there. */
  function MatchAt(s: string, i: nat): Option<nat> {
    if i < |s| && s[i] == '(' then
      var n := DigitRun(s[i + 1..]);
      if n > 0 && i + 1 + n < |s| && s[i + 1 + n] == ')' then Some(DigitsValue(s[i + 1..i + 1 + n])) else None
    else None
  }

  /** `re.search(r'\((\d+)\)', s).group(1)` read as a number: the leftmost match from position i. */
  function FirstMatch(s: string, i: nat): Option<nat>
    decreases |s| - i
  {
    if i >= |s| then None
    else if MatchAt(s, i).Some? then MatchAt(s, i)
    else FirstMatch(s, i + 1)
  }

  /** The label parse as written, at tabs/tab05_abatement_curve_demo.py:147 (None: no match, an error). */
  function ParseLabelAsWritten(lbl: string): Option<nat> {
    FirstMatch(lbl, 0)
  }

  /** s has no parenthesised digit run. */
  predicate NoParenDigits(s: string) {
    forall i :: 0 <= i < |s| ==> MatchAt(s, i).None?
  }

  lemma DigitRunAppend(x: string, q: string)
    requires q != [] && !IsDigit(q[0])
    ensures DigitRun(x + q) == DigitRun(x)
  {
    if x != [] {
      assert (x + q)[1..] == x[1..] + q;
      DigitRunAppend(x[1..], q);
    }
  }

  /** A match cannot start inside p and run past it when what follows p is neither a digit nor ')'. */
  lemma MatchAtAppend(p: string, q: string, i: nat)
    requires i < |p|
    requires q != [] && !IsDigit(q[0]) && q[0] != ')'
    ensures MatchAt(p + q, i) == MatchAt(p, i)
  {
    if p[i] == '(' {
      assert (p + q)[i + 1..] == p[i + 1..] + q;
      DigitRunAppend(p[i + 1..], q);
      var n := DigitRun(p[i + 1..]);
      if n > 0 && i + 1 + n < |p| {
        assert (p + q)[i + 1..i + 1 + n] == p[i + 1..i + 1 + n];
      }
    }
  }

  lemma {:induction false} FirstMatchSkipsPrefix(p: string, q: string, i: nat)
    requires i <= |p|
    requires NoParenDigits(p)
    requires q != [] && !IsDigit(q[0]) && q[0] != ')'
    ensures FirstMatch(p + q, i) == FirstMatch(p + q, |p|)
    decreases |p| - i
  {
    if i < |p| {
      MatchAtAppend(p, q, i);
      FirstMatchSkipsPrefix(p, q, i + 1);
    }
  }

  /**
   * The parse as written recovers the id whenever the country code and the
   * name contain no parenthesised digit run.
   */
  lemma ParseLabelAsWrittenRecoversId(iso3: string, name: string, id: nat)
    requires NoParenDigits(iso3 + ": " + name)
    ensures ParseLabelAsWritten(AssetLabel(iso3, name, id)) == Some(id)
  {
    var p := iso3 + ": " + name;
    var d := NatToString(id);
    var q := " (" + d + ")";
    var s := AssetLabel(iso3, name, id);
    assert s == p + q;
    FirstMatchSkipsPrefix(p, q, 0);
    assert MatchAt(s, |p|).None?;
    assert s[|p| + 2..] == d + ")";
    DigitRunAppend(d, ")");
    assert DigitRun(d) == |d|;
    assert s[|p| + 2..|p| + 2 + |d|] == d;
    DigitsValueOfNatToString(id);
    assert MatchAt(s, |p| + 1) == Some(id);
  }

  /** A name that itself holds "(7)" makes the parse as written return 7, not the asset's id. */
  lemma ParseLabelAsWrittenCounterexample()
    ensures ParseLabelAsWritten(AssetLabel("USA", "Plant (7)", 123)) == Some(7)
  {
    CounterexampleLabelText();
    var s := "USA: Plant (7) (123)";
    CounterexampleSkipsPrefix(s);
    CounterexampleMatch(s);
  }

  lemma CounterexampleLabelText()
    ensures AssetLabel("USA", "Plant (7)", 123) == "USA: Plant (7) (123)"
  {
    assert NatToString(1) == "1";
    assert NatToString(12) == "12";
    assert NatToString(123) == "123";
  }

  lemma CounterexampleSkipsPrefix(s: string)
    requires s == "USA: Plant (7) (123)"
    ensures FirstMatch(s, 0) == FirstMatch(s, 11)
  {
    forall i | 0 <= i < 11 ensures MatchAt(s, i).None? {
      assert s[i] != '(';
    }
    FirstMatchNone(s, 0, 11);
  }

  lemma CounterexampleMatch(s: string)
    requires s == "USA: Plant (7) (123)"
    ensures FirstMatch(s, 11) == Some(7)
  {
    assert s[12..] == "7) (123)";
    assert DigitRun(s[12..][1..]) == 0;
    assert DigitRun(s[12..]) == 1;
    assert s[12..13] == "7";
    assert DigitsValue("7") == 7;
    assert MatchAt(s, 11) == Some(7);
  }

  lemma {:induction false} FirstMatchNone(s: string, i: nat, j: nat)
    requires i <= j <= |s|
    requires forall k :: i <= k < j ==> MatchAt(s, k).None?
    ensures FirstMatch(s, i) == FirstMatch(s, j)
    decreases j - i
  {
    if i < j {
      FirstMatchNone(s, i + 1, j);
    }
  }

  /** The number of trailing digits of s. */
  function TrailingDigitRun(s: string): (n: nat)
    ensures n <= |s|
    ensures forall i :: |s| - n <= i < |s| ==> IsDigit(s[i])
    ensures n < |s| ==> !IsDigit(s[|s| - 1 - n])
  {
    if s == [] || !IsDigit(s[|s| - 1]) then 0 else 1 + TrailingDigitRun(s[..|s| - 1])
  }

  /** The intended parse: the digits of the parenthesised group that ends the label. */
  function ParseLabel(lbl: string): Option<nat> {
    if |lbl| >= 3 && lbl[|lbl| - 1] == ')' then
      var body := lbl[..|lbl| - 1];
      var n := TrailingDigitRun(body);
      if 0 < n < |body| && body[|body| - 1 - n] == '(' then Some(DigitsValue(body[|body| - n..])) else None
    else None
  }

  lemma TrailingDigitRunAfter(p: string, d: string)
    requires p != [] && !IsDigit(p[|p| - 1]) && AllDigits(d)
    ensures TrailingDigitRun(p + d) == |d|
  {
    if d != [] {
      assert (p + d)[..|p + d| - 1] == p + d[..|d| - 1];
      TrailingDigitRunAfter(p, d[..|d| - 1]);
    }
  }

  /** The intended parse recovers every lbl's id, whatever the name holds. */
  lemma ParseLabelRoundTrip(iso3: string, name: string, id: nat)
    ensures ParseLabel(AssetLabel(iso3, name, id)) == Some(id)
  {
    var s := AssetLabel(iso3, name, id);
    var d := NatToString(id);
    var p := iso3 + ": " + name + " (";
    assert s == p + d + ")";
    var body := s[..|s| - 1];
    assert body == p + d;
    TrailingDigitRunAfter(p, d);
    assert body[|body| - |d|..] == d;
    DigitsValueOfNatToString(id);
  }
}
