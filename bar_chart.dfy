/** The bar chart of average salaries: choosing the list for the active
    focus, laying the bars and their category labels out over the chart's
    width, sizing each bar by a linear scale, and the two text helpers the
    labels use — `numberWithCommas`, a regular-expression replace that
    inserts thousands separators, and `capitalize`. Coordinates are exact
    reals. */
module BarChart {
  import opened JsValues

  // ---------------------------------------------------------------------
  // numberWithCommas: x.toString().replace(/\B(?=(\d{3})+(?!\d))/g, ',')

  /** A character `\w` matches (no `u` flag): ASCII letters, digits, `_`. */
  predicate IsWordChar(c: char) {
    'a' <= c <= 'z' || 'A' <= c <= 'Z' || IsDigit(c) || c == '_'
  }

  /** `\b` holds at position `p` (between `s[p-1]` and `s[p]`) when exactly
      one of the two neighbours is a word character; outside the string
      counts as a non-word character. */
  predicate WordBoundary(s: string, p: nat)
    requires p <= |s|
  {
    (p > 0 && IsWordChar(s[p - 1])) != (p < |s| && IsWordChar(s[p]))
  }

  /** `(\d{3})+(?!\d)` matches at `p` with `k` groups: `3k` digits follow
      `p`, and no digit after them. */
  predicate GroupsEndAt(s: string, p: nat, k: nat) {
    && 1 <= k && p + 3 * k <= |s|
    && AllDigits(s[p..p + 3 * k])
    && (p + 3 * k == |s| || !IsDigit(s[p + 3 * k]))
  }

  /** The lookahead `(?=(\d{3})+(?!\d))` succeeds at `p`. */
  predicate Lookahead(s: string, p: nat)
    requires p <= |s|
  {
    exists k | 1 <= k <= (|s| - p) / 3 :: GroupsEndAt(s, p, k)
  }

  /** The pattern `\B(?=(\d{3})+(?!\d))` matches the empty string at
      position `p`. */
  predicate PatternAt(s: string, p: nat)
    requires p <= |s|
  {
    !WordBoundary(s, p) && Lookahead(s, p)
  }

  /** Where the replace inserts a comma: not at a word boundary, and before
      a run of digits whose length is a positive multiple of three
      (`PatternAt`, by `CommaAtIsPattern`). */
  predicate CommaAt(s: string, p: nat)
    requires p <= |s|
  {
    !WordBoundary(s, p) && DigitRun(s, p) > 0 && DigitRun(s, p) % 3 == 0
  }

  /** The first `q` characters of `s`, with "," inserted at every position
      where the pattern matches. A global replace of an empty match tries
      every position of the original string, so the positions are tested
      on `s` independently of one another. */
  function CommasBefore(s: string, q: nat): string
    requires q <= |s|
  {
    if q == 0 then ""
    else CommasBefore(s, q - 1) + (if CommaAt(s, q - 1) then "," else "") + [s[q - 1]]
  }

  /** `s.replace(/\B(?=(\d{3})+(?!\d))/g, ',')`; the pattern never matches at
      the end of the string, where no digit follows. */
  function InsertCommas(s: string): string {
    CommasBefore(s, |s|)
  }

  /** `numberWithCommas(n)` for an integer that prints without an exponent. */
  function NumberWithCommas(n: PrintableInt): string {
    InsertCommas(IntToDecimal(n))
  }

  /** The number of consecutive digits starting at `p`. */
  function DigitRun(s: string, p: nat): nat
    requires p <= |s|
    decreases |s| - p
  {
    if p == |s| || !IsDigit(s[p]) then 0 else 1 + DigitRun(s, p + 1)
  }

  /** The run is the longest stretch of digits from `p`. */
  lemma {:induction false} DigitRunExtent(s: string, p: nat)
    requires p <= |s|
    ensures p + DigitRun(s, p) <= |s|
    ensures forall i :: p <= i < p + DigitRun(s, p) ==> IsDigit(s[i])
    ensures p + DigitRun(s, p) == |s| || !IsDigit(s[p + DigitRun(s, p)])
    decreases |s| - p
  {
    if p < |s| && IsDigit(s[p]) {
      DigitRunExtent(s, p + 1);
    }
  }

  /** The lookahead succeeds exactly where a positive multiple of three
      digits runs from `p` up to a non-digit or the end. */
  lemma LookaheadByRun(s: string, p: nat)
    requires p <= |s|
    ensures Lookahead(s, p) <==> DigitRun(s, p) > 0 && DigitRun(s, p) % 3 == 0
  {
    var r := DigitRun(s, p);
    DigitRunExtent(s, p);
    if r > 0 && r % 3 == 0 {
      var k := r / 3;
      var g := s[p..p + 3 * k];
      assert AllDigits(g) by {
        forall i | 0 <= i < |g| ensures IsDigit(g[i]) {
          assert g[i] == s[p + i];
        }
      }
      assert GroupsEndAt(s, p, k);
    }
    if Lookahead(s, p) {
      var k :| 1 <= k <= (|s| - p) / 3 && GroupsEndAt(s, p, k);
    }
  }

  /** The replace inserts its commas exactly where the pattern matches. */
  lemma CommaAtIsPattern(s: string, p: nat)
    requires p <= |s|
    ensures CommaAt(s, p) <==> PatternAt(s, p)
  {
    LookaheadByRun(s, p);
  }

  /** Inside a digit string a comma goes exactly where a positive multiple
      of three digits remains, and never before the first digit. */
  lemma DigitCommaAt(d: string, p: nat)
    requires AllDigits(d) && p <= |d|
    ensures CommaAt(d, p) <==> 0 < p < |d| && (|d| - p) % 3 == 0
  {
    DigitRunToEnd(d, p);
  }

  lemma {:induction false} DigitRunToEnd(d: string, p: nat)
    requires AllDigits(d) && p <= |d|
    ensures DigitRun(d, p) == |d| - p
    decreases |d| - p
  {
    if p < |d| {
      DigitRunToEnd(d, p + 1);
    }
  }

  /** A leading minus sign moves every comma position by one and adds none:
      `\B` fails between the sign and the first digit. */
  lemma SignedCommaAt(d: string, p: nat)
    requires AllDigits(d) && p <= |d|
    ensures CommaAt("-" + d, p + 1) <==> CommaAt(d, p)
    ensures !CommaAt("-" + d, 0)
  {
    var s := "-" + d;
    DigitCommaAt(d, p);
    DigitRunToEnd(d, p);
    assert DigitRun(s, p + 1) == DigitRun(d, p) by {
      DigitRunShift(d, p);
    }
    if 0 < p < |d| {
      assert s[p] == d[p - 1] && s[p + 1] == d[p];
    }
  }

  lemma {:induction false} DigitRunShift(d: string, p: nat)
    requires p <= |d|
    ensures DigitRun("-" + d, p + 1) == DigitRun(d, p)
    decreases |d| - p
  {
    var s := "-" + d;
    if p < |d| {
      assert s[p + 1] == d[p];
      DigitRunShift(d, p + 1);
    }
  }

  /** Two strings that agree on their first `q` characters and on where the
      pattern matches among them are rewritten alike up to `q`. */
  lemma {:induction false} SameCommasBefore(s: string, t: string, q: nat)
    requires q <= |s| && q <= |t|
    requires forall p :: 0 <= p < q ==> s[p] == t[p] && (CommaAt(s, p) <==> CommaAt(t, p))
    ensures CommasBefore(s, q) == CommasBefore(t, q)
  {
    if q > 0 {
      SameCommasBefore(s, t, q - 1);
    }
  }

  /** Rewriting "-" followed by digits keeps the sign and rewrites the
      digits alone. */
  lemma {:induction false} SignedCommasBefore(d: string, q: nat)
    requires AllDigits(d) && q <= |d|
    ensures CommasBefore("-" + d, q + 1) == "-" + CommasBefore(d, q)
  {
    var s := "-" + d;
    if q == 0 {
      SignedCommaAt(d, 0);
    } else {
      SignedCommasBefore(d, q - 1);
      SignedCommaAt(d, q - 1);
      var x := CommasBefore(d, q - 1);
      var c := if CommaAt(d, q - 1) then "," else "";
      var ch := d[q - 1];
      assert s[q] == ch;
      assert CommasBefore(s, q + 1) == ("-" + x) + c + [ch];
      assert CommasBefore(d, q) == x + c + [ch];
      PrependAssoc("-", x, c, [ch]);
    }
  }

  lemma PrependAssoc(a: string, b: string, c: string, e: string)
    ensures (a + b) + c + e == a + (b + c + e)
  {
  }

  lemma {:induction false} NoCommasBefore(s: string, q: nat)
    requires q <= |s|
    requires forall p :: 0 <= p < q ==> !CommaAt(s, p)
    ensures CommasBefore(s, q) == s[..q]
  {
    if q > 0 {
      NoCommasBefore(s, q - 1);
      TakeOneMore(s, q);
    }
  }

  lemma TakeOneMore(s: string, q: nat)
    requires 0 < q <= |s|
    ensures s[..q] == s[..q - 1] + [s[q - 1]]
  {
  }

  // Digit groups: the intended reading of the replace.

  function Concat(gs: seq<string>): string {
    if gs == [] then "" else Concat(gs[..|gs| - 1]) + gs[|gs| - 1]
  }

  /** `gs` joined with single commas between neighbours. */
  function JoinCommas(gs: seq<string>): string {
    if |gs| <= 1 then Concat(gs) else JoinCommas(gs[..|gs| - 1]) + "," + gs[|gs| - 1]
  }

  /** A nonempty string cut into groups of three from the right: the first
      group keeps the one to three characters left over. */
  function Groups(d: string): (gs: seq<string>)
    requires |d| > 0
    ensures |gs| > 0 && 1 <= |gs[0]| <= 3
    ensures forall i :: 1 <= i < |gs| ==> |gs[i]| == 3
    ensures Concat(gs) == d
    ensures |gs| == 1 <==> |d| <= 3
    decreases |d|
  {
    if |d| <= 3 then
      assert Concat([d]) == Concat([]) + d;
      [d]
    else
      var a, b := d[..|d| - 3], d[|d| - 3..];
      var gs := Groups(a);
      assert (gs + [b])[..|gs|] == gs;
      assert a + b == d;
      gs + [b]
  }

  /** `numberWithCommas` on digits puts a comma between consecutive groups
      of three counted from the right, and nowhere else. */
  lemma {:induction false} DigitsGrouped(d: string)
    requires |d| > 0 && AllDigits(d)
    ensures InsertCommas(d) == JoinCommas(Groups(d))
    decreases |d|
  {
    if |d| <= 3 {
      ShortDigitsGrouped(d);
    } else {
      var a, b := d[..|d| - 3], d[|d| - 3..];
      PrefixCommas(d);
      LastGroupCommas(d);
      DigitsGrouped(a);
      assert Groups(d) == Groups(a) + [b];
      JoinLast(Groups(a), b);
    }
  }

  /** Three digits or fewer get no comma. */
  lemma ShortDigitsGrouped(d: string)
    requires 0 < |d| <= 3 && AllDigits(d)
    ensures InsertCommas(d) == JoinCommas(Groups(d))
  {
    forall p | 0 <= p < |d| ensures !CommaAt(d, p) {
      DigitCommaAt(d, p);
    }
    NoCommasBefore(d, |d|);
    assert d[..|d|] == d;
    JoinOne(d);
  }

  /** Below the last three digits the commas fall as they do in the digits
      without those three. */
  lemma PrefixCommas(d: string)
    requires AllDigits(d) && |d| > 3
    ensures CommasBefore(d, |d| - 3) == InsertCommas(d[..|d| - 3])
  {
    var a := d[..|d| - 3];
    forall p | 0 <= p < |a| ensures d[p] == a[p] && (CommaAt(d, p) <==> CommaAt(a, p)) {
      SameCommaBelow(d, p);
    }
    SameCommasBefore(d, a, |a|);
  }

  lemma SameCommaBelow(d: string, p: nat)
    requires AllDigits(d) && p + 3 < |d|
    ensures CommaAt(d, p) <==> CommaAt(d[..|d| - 3], p)
  {
    var a := d[..|d| - 3];
    DigitCommaAt(d, p);
    DigitCommaAt(a, p);
    var m := |a| - p;
    assert |d| - p == m + 3;
    assert (m + 3) % 3 == m % 3;
  }

  /** The last three digits of a longer digit string get a comma before
      them and none among them. */
  lemma LastGroupCommas(d: string)
    requires AllDigits(d) && |d| > 3
    ensures CommasBefore(d, |d|) == CommasBefore(d, |d| - 3) + "," + d[|d| - 3..]
  {
    var n := |d|;
    DigitCommaAt(d, n - 3);
    DigitCommaAt(d, n - 2);
    DigitCommaAt(d, n - 1);
    var x := CommasBefore(d, n - 3);
    assert CommasBefore(d, n - 2) == x + "," + [d[n - 3]];
    assert CommasBefore(d, n - 1) == x + "," + [d[n - 3]] + [d[n - 2]];
    assert CommasBefore(d, n) == x + "," + [d[n - 3]] + [d[n - 2]] + [d[n - 1]];
    LastThree(d);
  }

  lemma LastThree(d: string)
    requires |d| >= 3
    ensures d[|d| - 3..] == [d[|d| - 3]] + [d[|d| - 2]] + [d[|d| - 1]]
  {
  }

  lemma JoinLast(gs: seq<string>, b: string)
    requires |gs| > 0
    ensures JoinCommas(gs + [b]) == JoinCommas(gs) + "," + b
  {
    assert (gs + [b])[..|gs|] == gs;
  }

  /** `numberWithCommas(n)` is the sign, if any, followed by the digits of
      the magnitude in groups of three counted from the right: the first
      group has one to three digits, every later group exactly three. */
  lemma NumberWithCommasGroups(n: PrintableInt)
    ensures var d := NatToDecimal(if n < 0 then -n else n);
      NumberWithCommas(n) == (if n < 0 then "-" else "") + JoinCommas(Groups(d))
  {
    var d := NatToDecimal(if n < 0 then -n else n);
    DigitsGrouped(d);
    if n < 0 {
      SignedCommasBefore(d, |d|);
    }
  }

  predicate CommaFree(s: string) {
    forall i :: 0 <= i < |s| ==> s[i] != ','
  }

  /** Removes every comma. */
  function RemoveCommas(s: string): string {
    if s == [] then "" else RemoveCommas(s[..|s| - 1]) + (if s[|s| - 1] == ',' then "" else [s[|s| - 1]])
  }

  lemma {:induction false} RemoveCommasAppend(a: string, b: string)
    ensures RemoveCommas(a + b) == RemoveCommas(a) + RemoveCommas(b)
    decreases |b|
  {
    if b == [] {
      assert a + b == a;
    } else {
      var b' := b[..|b| - 1];
      assert (a + b)[..|a + b| - 1] == a + b';
      RemoveCommasAppend(a, b');
    }
  }

  /** The replace only inserts commas: removing them gives back a string
      that had none. */
  lemma {:induction false} RemoveInsertedCommas(s: string, q: nat)
    requires q <= |s| && CommaFree(s)
    ensures RemoveCommas(CommasBefore(s, q)) == s[..q]
  {
    if q > 0 {
      var prev := CommasBefore(s, q - 1);
      var c := if CommaAt(s, q - 1) then "," else "";
      var ch := s[q - 1];
      assert CommasBefore(s, q) == prev + c + [ch];
      RemoveInsertedCommas(s, q - 1);
      RemoveCommasAppend(prev + c, [ch]);
      RemoveCommasAppend(prev, c);
      assert RemoveCommas(c) == "" by {
        if c != "" {
          assert RemoveCommas(c) == RemoveCommas([]) + "";
        }
      }
      assert RemoveCommas([ch]) == [ch] by {
        assert [ch][..0] == [];
      }
      TakeOneMore(s, q);
    }
  }

  /** Removing the commas from `numberWithCommas(n)` gives `n.toString()`;
      for a natural number, its decimal digits, which read back as `n`. */
  lemma NumberWithCommasRoundTrip(n: PrintableInt)
    ensures RemoveCommas(NumberWithCommas(n)) == IntToDecimal(n)
    ensures n >= 0 ==> DecimalValue(RemoveCommas(NumberWithCommas(n))) == n
  {
    CommasRemoved(n);
    if n >= 0 {
      DecimalRoundTrip(n);
    }
  }

  lemma CommasRemoved(n: PrintableInt)
    ensures RemoveCommas(NumberWithCommas(n)) == IntToDecimal(n)
  {
    var s := IntToDecimal(n);
    assert CommaFree(s) by {
      if n < 0 {
        assert forall i :: 1 <= i < |s| ==> s[i] == NatToDecimal(-n)[i - 1];
      }
    }
    RemoveInsertedCommas(s, |s|);
    assert s[..|s|] == s;
  }

  /** A joined group sequence holds a comma exactly when there are at least
      two groups (the groups themselves holding none). */
  lemma {:induction false} JoinCommasHasComma(gs: seq<string>)
    requires forall i :: 0 <= i < |gs| ==> CommaFree(gs[i])
    ensures ',' in JoinCommas(gs) <==> |gs| >= 2
  {
    if |gs| == 1 {
      assert Concat(gs) == Concat([]) + gs[0];
    } else if |gs| > 1 {
      assert JoinCommas(gs)[|JoinCommas(gs[..|gs| - 1])|] == ',';
    }
  }

  lemma DecimalLength(m: nat)
    ensures |NatToDecimal(m)| <= 3 <==> m < 1000
  {
    if m >= 10 {
      if m >= 100 {
        assert |NatToDecimal(m / 10)| >= 2;
      } else {
        assert |NatToDecimal(m / 10)| == 1;
      }
    }
  }

  /** Numbers above -1000 and below 1000 come back unchanged; every other
      number gets at least one comma. */
  lemma SmallNumbersUnchanged(n: PrintableInt)
    ensures -1000 < n < 1000 ==> NumberWithCommas(n) == IntToDecimal(n)
    ensures ',' in NumberWithCommas(n) <==> n <= -1000 || 1000 <= n
  {
    var m := if n < 0 then -n else n;
    var d := NatToDecimal(m);
    var gs := Groups(d);
    NumberWithCommasGroups(n);
    DecimalLength(m);
    forall i | 0 <= i < |gs| ensures CommaFree(gs[i]) {
      GroupsWithin(d, i);
    }
    JoinCommasHasComma(gs);
    if |gs| == 1 {
      assert Concat(gs) == Concat([]) + gs[0];
    }
  }

  /** Every group is a piece of the grouped string. */
  lemma {:induction false} GroupsWithin(d: string, i: nat)
    requires |d| > 0 && i < |Groups(d)|
    requires CommaFree(d)
    ensures CommaFree(Groups(d)[i])
    decreases |d|
  {
    if |d| > 3 {
      var a := d[..|d| - 3];
      if i < |Groups(a)| {
        assert forall j :: 0 <= j < |a| ==> a[j] == d[j];
        GroupsWithin(a, i);
      } else {
        assert forall j :: 0 <= j < 3 ==> Groups(d)[i][j] == d[|d| - 3 + j];
      }
    }
  }

  // ---------------------------------------------------------------------
  // The value label: '$' + numberWithCommas(Math.round(value)).toString()

  /** `Math.round`: the nearest integer, halves rounding up. */
  function Round(v: real): (r: int)
    ensures r as real - 0.5 <= v < r as real + 0.5
  {
    (v + 0.5).Floor
  }

  /** The value's rounding prints without an exponent. */
  predicate Printable(v: real) {
    -DecimalLimit < Round(v) < DecimalLimit
  }

  /** The text written on a bar for its value. */
  function Label(v: real): string
    requires Printable(v)
  {
    "$" + NumberWithCommas(Round(v))
  }

  /** The label is a dollar sign followed by the rounded value's digits
      with commas inserted: removing them gives `Math.round(v).toString()`. */
  lemma LabelDigits(v: real)
    requires Printable(v)
    ensures Label(v)[0] == '$'
    ensures RemoveCommas(Label(v)) == "$" + IntToDecimal(Round(v))
  {
    var n := Round(v);
    var w := NumberWithCommas(n);
    assert Label(v) == "$" + w;
    CommasRemoved(n);
    RemoveCommasAppend("$", w);
    assert RemoveCommas("$") == RemoveCommas([]) + "$";
  }

  lemma ExampleMillion()
    ensures NumberWithCommas(1234567) == "1,234,567"
  {
    DecimalOfMillion();
    GroupsOfMillion();
    NumberWithCommasGroups(1234567);
    JoinMillion();
  }

  lemma DecimalOfMillion()
    ensures NatToDecimal(1234567) == "1234567"
  {
    assert NatToDecimal(1) == "1";
    assert NatToDecimal(12) == NatToDecimal(1) + "2";
    assert NatToDecimal(123) == NatToDecimal(12) + "3";
    assert NatToDecimal(1234) == NatToDecimal(123) + "4";
    assert NatToDecimal(12345) == NatToDecimal(1234) + "5";
    assert NatToDecimal(123456) == NatToDecimal(12345) + "6";
    assert NatToDecimal(1234567) == NatToDecimal(123456) + "7";
  }

  lemma GroupsOfMillion()
    ensures Groups("1234567") == ["1", "234", "567"]
  {
    assert "1234567"[..4] == "1234" && "1234"[..1] == "1";
    assert Groups("1") == ["1"];
    assert Groups("1234") == ["1"] + ["234"];
  }

  lemma JoinMillion()
    ensures JoinCommas(["1", "234", "567"]) == "1,234,567"
  {
    JoinOne("1");
    JoinLast(["1"], "234");
    JoinLast(["1", "234"], "567");
    assert ["1"] + ["234"] == ["1", "234"];
    assert ["1", "234"] + ["567"] == ["1", "234", "567"];
  }

  lemma JoinOne(g: string)
    ensures JoinCommas([g]) == g
  {
    assert Concat([g]) == Concat([]) + g;
  }

  lemma ExampleThousand()
    ensures NumberWithCommas(1000) == "1,000"
  {
    DecimalOfThousand();
    assert Groups("1000") == ["1", "000"] by {
      assert "1000"[..1] == "1";
      assert Groups("1") == ["1"];
    }
    NumberWithCommasGroups(1000);
    JoinThousand();
  }

  lemma DecimalOfThousand()
    ensures NatToDecimal(1000) == "1000"
  {
    assert NatToDecimal(1) == "1";
    assert NatToDecimal(10) == NatToDecimal(1) + "0";
    assert NatToDecimal(100) == NatToDecimal(10) + "0";
    assert NatToDecimal(1000) == NatToDecimal(100) + "0";
  }

  lemma JoinThousand()
    ensures JoinCommas(["1", "000"]) == "1,000"
  {
    JoinOne("1");
    JoinLast(["1"], "000");
    assert ["1"] + ["000"] == ["1", "000"];
  }

  /** 1234567 is labelled "$1,234,567". */
  lemma ExampleLabel()
    ensures Label(1234567.0) == "$1,234,567"
  {
    assert Round(1234567.0) == 1234567;
    ExampleMillion();
  }

  /** Halves round up, so 999.5 reaches "$1,000". */
  lemma ExampleLabelRoundsUp()
    ensures Label(999.5) == "$1,000"
  {
    assert Round(999.5) == 1000;
    ExampleThousand();
  }

  /** The cents of 42.49 are dropped. */
  lemma ExampleLabelDropsCents()
    ensures Label(42.49) == "$42"
  {
    assert Round(42.49) == 42;
    ExampleSmall();
  }

  lemma ExampleSmall()
    ensures NumberWithCommas(42) == "42"
  {
    SmallNumbersUnchanged(42);
    assert NatToDecimal(4) == "4";
    assert NatToDecimal(42) == NatToDecimal(4) + "2";
  }

  // ---------------------------------------------------------------------
  // capitalize

  /** `s.charAt(i)`: "" past the end. */
  function CharAt(s: string, i: nat): string {
    if i < |s| then [s[i]] else ""
  }

  /** `s.slice(i)`: "" past the end. */
  function Slice(s: string, i: nat): string {
    if i <= |s| then s[i..] else ""
  }

  /** `capitalize(v)`: "" for anything but a string; otherwise the string
      with its first character upper-cased. */
  function Capitalize(v: JsValue): (r: string)
    ensures !v.JsString? ==> r == ""
    ensures v.JsString? ==> |r| == |v.s|
    ensures v.JsString? && v.s != "" ==> r[0] == UpperChar(v.s[0]) && r[1..] == v.s[1..]
  {
    if !v.JsString? then ""
    else ToUpperCase(CharAt(v.s, 0)) + Slice(v.s, 1)
  }

  /** Capitalizing twice is capitalizing once, and a string that already
      starts with anything but a lower-case letter is returned as it is. */
  lemma CapitalizeIdempotent(s: string)
    ensures Capitalize(JsString(Capitalize(JsString(s)))) == Capitalize(JsString(s))
    ensures s == "" || !('a' <= s[0] <= 'z') ==> Capitalize(JsString(s)) == s
  {
    var c := Capitalize(JsString(s));
    if s != "" {
      assert c == [UpperChar(s[0])] + s[1..];
      assert Capitalize(JsString(c)) == [UpperChar(c[0])] + c[1..];
      if !('a' <= s[0] <= 'z') {
        assert s == [s[0]] + s[1..];
      }
    }
  }

  // ---------------------------------------------------------------------
  // Choosing the list and laying out the chart

  /** A row of one of the per-category salary lists: its average salary and
      the rest of its fields (the category value under the focus name). */
  datatype Row = Row(avgSalary: real, fields: Record)

  /** The three lists the user context supplies. */
  datatype Lists = Lists(raceList: seq<Row>, genderList: seq<Row>, ageList: seq<Row>)

  /** The list for `selectedFocus`, compared with `===`. */
  function SelectList(focus: JsValue, lists: Lists): seq<Row> {
    if focus == JsString("gender") then lists.genderList
    else if focus == JsString("age") then lists.ageList
    else lists.raceList
  }

  /** Only the exact strings "gender" and "age" choose their lists; every
      other focus — "race", another spelling, a number, undefined — falls
      back to the race list. */
  lemma FocusSelection(focus: JsValue, lists: Lists)
    ensures focus == JsString("gender") ==> SelectList(focus, lists) == lists.genderList
    ensures focus == JsString("age") ==> SelectList(focus, lists) == lists.ageList
    ensures focus != JsString("gender") && focus != JsString("age") ==>
      SelectList(focus, lists) == lists.raceList
    ensures SelectList(JsString("Gender"), lists) == lists.raceList
  {
  }

  /** d3's `max(list, row => row.avg_salary)` over a nonempty list. */
  function MaxSalary(list: seq<Row>): (m: real)
    requires |list| > 0
    ensures forall i :: 0 <= i < |list| ==> list[i].avgSalary <= m
    ensures exists i :: 0 <= i < |list| && list[i].avgSalary == m
  {
    if |list| == 1 then list[0].avgSalary
    else
      var m := MaxSalary(list[..|list| - 1]);
      var last := list[|list| - 1].avgSalary;
      assert forall i :: 0 <= i < |list| - 1 ==> list[..|list| - 1][i] == list[i];
      if last > m then last else m
  }

  /** `scaleLinear().domain([d0, d1]).range([r0, r1])` applied to `x`: the
      value's position `t` in the domain, interpolated into the range. A
      domain with `d0 == d1` leaves nothing to divide by; d3 then gives every
      value the same position, which it fixes inside the library, so here it
      is the parameter `flat`. */
  function Linear(d0: real, d1: real, r0: real, r1: real, flat: real, x: real): real {
    var t := if d0 != d1 then (x - d0) / (d1 - d0) else flat;
    r0 * (1.0 - t) + r1 * t
  }

  /** A linear scale sends the domain's ends to the range's ends, and over a
      single-point domain it sends every value to the same point. */
  lemma LinearEnds(d0: real, d1: real, r0: real, r1: real, flat: real, x: real, y: real)
    ensures d0 != d1 ==> Linear(d0, d1, r0, r1, flat, d0) == r0
    ensures d0 != d1 ==> Linear(d0, d1, r0, r1, flat, d1) == r1
    ensures d0 == d1 ==> Linear(d0, d1, r0, r1, flat, x) == Linear(d0, d1, r0, r1, flat, y)
  {
  }

  /** The props of a `Bar`: its rectangle and the value it shows. */
  datatype Bar = Bar(x: real, y: real, width: real, height: real, value: real)

  /** Where `Bar` writes its value: centred over the rectangle. */
  function ValueTextX(b: Bar): real {
    b.x + b.width / 2.0
  }

  /** What `Bar` writes: the value's label. */
  function ValueText(b: Bar): string
    requires Printable(b.value)
  {
    Label(b.value)
  }

  /** A category name written under a bar. */
  datatype CategoryLabel = CategoryLabel(x: real, y: real, text: string)

  datatype Layout = Layout(bars: seq<Bar>, labels: seq<CategoryLabel>)

  /** `barChartHeight - barScale(v)`, the height of a bar for value `v`
      under the scale from [0, max] onto [h, 0]. */
  function BarHeight(h: real, max: real, flat: real, v: real): real {
    h - Linear(0.0, max, h, 0.0, flat, v)
  }

  /** Bar `i` of the chart. */
  function BarAt(list: seq<Row>, i: nat, totalWidth: real, totalHeight: real, flat: real): Bar
    requires i < |list|
  {
    var barChartHeight := totalHeight - 0.0 - 0.0;
    var barWidth := totalWidth / |list| as real;
    var x := i as real * barWidth;
    var width := barWidth * 0.93;
    var value := list[i].avgSalary;
    Bar(x, 0.0, width, BarHeight(barChartHeight, MaxSalary(list), flat, value), value)
  }

  /** The label under bar `i`: the row's value for the focus, capitalized. */
  function LabelAt(list: seq<Row>, focus: JsValue, i: nat, totalWidth: real): CategoryLabel
    requires i < |list|
  {
    var barWidth := totalWidth / |list| as real;
    CategoryLabel(i as real * barWidth + barWidth * 0.5, 10.0,
      Capitalize(Lookup(list[i].fields, ToPropertyKey(focus))))
  }

  /** The bars and labels `BarChart` renders for the focus's list. */
  function Chart(focus: JsValue, lists: Lists, totalWidth: real, totalHeight: real, flat: real): Layout {
    var list := SelectList(focus, lists);
    Layout(
      seq(|list|, i requires 0 <= i < |list| => BarAt(list, i, totalWidth, totalHeight, flat)),
      seq(|list|, i requires 0 <= i < |list| => LabelAt(list, focus, i, totalWidth)))
  }

  /** One bar and one category label per row of the chosen list; an empty
      list draws nothing. */
  lemma ChartSizes(focus: JsValue, lists: Lists, totalWidth: real, totalHeight: real, flat: real)
    ensures var c := Chart(focus, lists, totalWidth, totalHeight, flat);
      |c.bars| == |SelectList(focus, lists)| && |c.labels| == |SelectList(focus, lists)|
    ensures SelectList(focus, lists) == [] ==> Chart(focus, lists, totalWidth, totalHeight, flat) == Layout([], [])
  {
  }

  /** The width is split evenly among the N rows: bar i starts at
      i*totalWidth/N and is 0.93 of its slot wide, its value sits in its
      middle, and its category label at (i+0.5)*totalWidth/N, inside the
      bar. */
  lemma BarSlot(list: seq<Row>, focus: JsValue, i: nat, totalWidth: real, totalHeight: real, flat: real)
    requires i < |list|
    ensures var b, l, n := BarAt(list, i, totalWidth, totalHeight, flat), LabelAt(list, focus, i, totalWidth), |list| as real;
      && b.x == i as real * totalWidth / n
      && b.y == 0.0
      && b.width == 0.93 * totalWidth / n
      && ValueTextX(b) == (i as real + 0.465) * totalWidth / n
      && l.x == (i as real + 0.5) * totalWidth / n
      && l.y == 10.0
      && (totalWidth > 0.0 ==> b.x < l.x < b.x + b.width)
  {
    var n := |list| as real;
    var w := totalWidth / n;
    assert i as real * w == i as real * totalWidth / n;
    assert w * 0.93 == 0.93 * totalWidth / n;
    assert i as real * w + w * 0.93 / 2.0 == (i as real + 0.465) * totalWidth / n;
    assert i as real * w + w * 0.5 == (i as real + 0.5) * totalWidth / n;
    if totalWidth > 0.0 {
      assert w > 0.0;
      assert w * 0.5 < w * 0.93;
    }
  }

  /** With a positive width, consecutive bars leave a gap between them and
      the last bar ends inside the chart. */
  lemma BarsApart(list: seq<Row>, i: nat, totalWidth: real, totalHeight: real, flat: real)
    requires i < |list| && totalWidth > 0.0
    ensures var b := BarAt(list, i, totalWidth, totalHeight, flat);
      0.0 <= b.x && b.x + b.width < b.x + totalWidth / |list| as real <= totalWidth
    ensures i + 1 < |list| ==>
      BarAt(list, i, totalWidth, totalHeight, flat).x + BarAt(list, i, totalWidth, totalHeight, flat).width
        < BarAt(list, i + 1, totalWidth, totalHeight, flat).x
  {
    var n := |list| as real;
    var w := totalWidth / n;
    SlotBounds(i, |list|, totalWidth);
    assert BarAt(list, i, totalWidth, totalHeight, flat).x == i as real * w;
    assert BarAt(list, i, totalWidth, totalHeight, flat).width == w * 0.93;
    if i + 1 < |list| {
      assert BarAt(list, i + 1, totalWidth, totalHeight, flat).x == (i + 1) as real * w;
    }
  }

  /** Slot `i` of `n` equal slots over a positive width `total` lies inside
      it, and 0.93 of slot `i` ends before slot `i + 1` begins. */
  lemma SlotBounds(i: nat, n: nat, total: real)
    requires i < n && total > 0.0
    ensures var w := total / n as real;
      && 0.0 <= i as real * w
      && i as real * w + w * 0.93 < i as real * w + w
      && i as real * w + w == (i + 1) as real * w
      && (i + 1) as real * w <= total
  {
    var w := total / n as real;
    var m := n as real;
    assert w > 0.0;
    assert (i + 1) as real <= m;
    assert (i + 1) as real * w <= m * w;
    assert m * w == total;
  }

  /** The text of bar i is its value's label, and the category label is the
      row's value for the focus, capitalized ("" when it is not a
      string). */
  lemma BarTexts(list: seq<Row>, focus: JsValue, i: nat, totalWidth: real, totalHeight: real, flat: real)
    requires i < |list| && Printable(list[i].avgSalary)
    ensures Printable(BarAt(list, i, totalWidth, totalHeight, flat).value)
    ensures ValueText(BarAt(list, i, totalWidth, totalHeight, flat)) == Label(list[i].avgSalary)
    ensures var v := Lookup(list[i].fields, ToPropertyKey(focus));
      LabelAt(list, focus, i, totalWidth).text == Capitalize(v)
  {
  }

  /** A bar's height is proportional to its value: the scale from [0, max]
      onto [H, 0] gives height H*v/max. */
  lemma HeightProportional(h: real, max: real, flat: real, v: real)
    requires max != 0.0
    ensures BarHeight(h, max, flat, v) == h * v / max
  {
    var t := v / max;
    assert Linear(0.0, max, h, 0.0, flat, v) == h * (1.0 - t);
    assert h * t == h * v / max;
  }

  /** With a positive maximum, a zero value draws no bar, the maximum
      reaches the full height, and (for a non-negative height) a larger
      value never draws a shorter bar. */
  lemma HeightScale(h: real, max: real, flat: real, v: real, w: real)
    requires max > 0.0
    ensures BarHeight(h, max, flat, 0.0) == 0.0
    ensures BarHeight(h, max, flat, max) == h
    ensures h >= 0.0 && v <= w ==> BarHeight(h, max, flat, v) <= BarHeight(h, max, flat, w)
  {
    HeightProportional(h, max, flat, 0.0);
    HeightProportional(h, max, flat, max);
    HeightProportional(h, max, flat, v);
    HeightProportional(h, max, flat, w);
    if h >= 0.0 && v <= w {
      assert v / max <= w / max;
      assert h * (v / max) <= h * (w / max);
    }
  }

  /** In a chart of positive salaries every bar fits the chart's height, and
      the row with the highest salary reaches it. */
  lemma TallestBar(list: seq<Row>, totalWidth: real, totalHeight: real, flat: real)
    requires |list| > 0 && totalHeight >= 0.0
    requires forall i :: 0 <= i < |list| ==> list[i].avgSalary >= 0.0
    requires MaxSalary(list) > 0.0
    ensures forall i :: 0 <= i < |list| ==>
      0.0 <= BarAt(list, i, totalWidth, totalHeight, flat).height <= totalHeight
    ensures exists i :: 0 <= i < |list| && BarAt(list, i, totalWidth, totalHeight, flat).height == totalHeight
  {
    var m := MaxSalary(list);
    forall i | 0 <= i < |list|
      ensures 0.0 <= BarAt(list, i, totalWidth, totalHeight, flat).height <= totalHeight
    {
      HeightScale(totalHeight, m, flat, 0.0, list[i].avgSalary);
      HeightScale(totalHeight, m, flat, list[i].avgSalary, m);
    }
    var k :| 0 <= k < |list| && list[k].avgSalary == m;
    HeightScale(totalHeight, m, flat, 0.0, 0.0);
    assert BarAt(list, k, totalWidth, totalHeight, flat).height == totalHeight;
  }

  /** When every salary in the list is 0 (a maximum of 0), the scale has a
      single-point domain: all bars are drawn equally tall, at the fraction
      `flat` of the chart's height. */
  lemma FlatChart(list: seq<Row>, totalWidth: real, totalHeight: real, flat: real)
    requires |list| > 0 && MaxSalary(list) == 0.0
    ensures forall i :: 0 <= i < |list| ==>
      BarAt(list, i, totalWidth, totalHeight, flat).height == totalHeight * flat
  {
    forall i | 0 <= i < |list|
      ensures BarAt(list, i, totalWidth, totalHeight, flat).height == totalHeight * flat
    {
      assert Linear(0.0, 0.0, totalHeight, 0.0, flat, list[i].avgSalary) == totalHeight * (1.0 - flat);
    }
  }
}
