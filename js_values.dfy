/** The JavaScript values that reach the chart code, and the pieces of the
    language's semantics the chart code depends on: converting a value to a
    property key, printing an integer in decimal, and ASCII case mapping. */
module JsValues {

  datatype Option<T> = None | Some(value: T)

  /** `Number.prototype.toString` prints plain decimal digits below 10^21 in
      magnitude and switches to exponent notation from there on. */
  const DecimalLimit: int := 1_000_000_000_000_000_000_000

  type PrintableInt = i: int | -DecimalLimit < i < DecimalLimit

  /** A field value of a record. Numbers are the integral ones that print
      in plain decimal; an object is a plain object with the default
      `toString`. */
  datatype JsValue =
    | JsString(s: string)
    | JsInt(n: PrintableInt)
    | JsBool(b: bool)
    | JsNull
    | JsUndefined
    | JsObject

  /** A record is a plain object: its own fields by name. */
  type Record = map<string, JsValue>

  /** `rec[field]`: a field the record does not have reads as `undefined`. */
  function Lookup(rec: Record, field: string): JsValue {
    if field in rec then rec[field] else JsUndefined
  }

  // ---------------------------------------------------------------------
  // Decimal digits

  predicate IsDigit(c: char) {
    '0' <= c <= '9'
  }

  predicate AllDigits(s: string) {
    forall i :: 0 <= i < |s| ==> IsDigit(s[i])
  }

  /** The canonical decimal form of a natural number: digits only, and no
      leading zero unless the number is zero itself. */
  predicate Canonical(s: string) {
    |s| > 0 && AllDigits(s) && (s[0] == '0' ==> |s| == 1)
  }

  function DigitChar(d: nat): (c: char)
    requires d < 10
    ensures IsDigit(c)
  {
    ('0' as int + d) as char
  }

  function DigitValue(c: char): nat
    requires IsDigit(c)
  {
    c as int - '0' as int
  }

  /** The decimal digits of `n`, most significant first. */
  function NatToDecimal(n: nat): (s: string)
    ensures Canonical(s)
    ensures n > 0 ==> s[0] != '0'
    ensures n < 10 <==> |s| == 1
  {
    if n < 10 then [DigitChar(n)] else NatToDecimal(n / 10) + [DigitChar(n % 10)]
  }

  /** The number a string of decimal digits denotes. */
  function DecimalValue(s: string): nat
    requires AllDigits(s)
  {
    if s == [] then 0 else 10 * DecimalValue(s[..|s| - 1]) + DigitValue(s[|s| - 1])
  }

  /** `n.toString()` for an integer `n` that prints without an exponent. */
  function IntToDecimal(n: PrintableInt): string {
    if n < 0 then "-" + NatToDecimal(-n) else NatToDecimal(n)
  }

  /** Reading back the printed digits gives the number. */
  lemma {:induction false} DecimalRoundTrip(n: nat)
    ensures DecimalValue(NatToDecimal(n)) == n
  {
    if n >= 10 {
      var s := NatToDecimal(n / 10);
      DecimalRoundTrip(n / 10);
      assert (s + [DigitChar(n % 10)])[..|s|] == s;
    }
  }

  /** A nonempty digit string whose first digit is not zero denotes at
      least that first digit's value. */
  lemma {:induction false} LeadingDigitBound(s: string)
    requires |s| > 0 && AllDigits(s)
    ensures DecimalValue(s) >= DigitValue(s[0])
    ensures |s| > 1 && s[0] != '0' ==> DecimalValue(s) >= 10
  {
    if |s| > 1 {
      var t := s[..|s| - 1];
      LeadingDigitBound(t);
      assert t[0] == s[0];
    }
  }

  /** Printing the value of a canonical digit string gives that string back:
      canonical decimal forms and natural numbers correspond one to one. */
  lemma {:induction false} CanonicalRoundTrip(s: string)
    requires Canonical(s)
    ensures NatToDecimal(DecimalValue(s)) == s
  {
    if |s| > 1 {
      var t := s[..|s| - 1];
      assert t[0] == s[0];
      assert Canonical(t);
      LeadingDigitBound(t);
      LeadingDigitBound(s);
      CanonicalRoundTrip(t);
      var v := DecimalValue(s);
      assert v / 10 == DecimalValue(t) && v % 10 == DigitValue(s[|s| - 1]);
      assert s == t + [s[|s| - 1]];
    }
  }

  /** Distinct canonical digit strings denote distinct numbers. */
  lemma CanonicalInjective(a: string, b: string)
    requires Canonical(a) && Canonical(b) && a != b
    ensures DecimalValue(a) != DecimalValue(b)
  {
    CanonicalRoundTrip(a);
    CanonicalRoundTrip(b);
  }

  // ---------------------------------------------------------------------
  // Property keys

  /** ToPropertyKey: the string under which `obj[v]` stores or finds a
      property. Every value other than a string is converted to its string
      form, so `undefined` becomes the key "undefined". */
  function ToPropertyKey(v: JsValue): string {
    match v
    case JsString(s) => s
    case JsInt(n) => IntToDecimal(n)
    case JsBool(b) => if b then "true" else "false"
    case JsNull => "null"
    case JsUndefined => "undefined"
    case JsObject => "[object Object]"
  }

  /** Different integers never share a property key, and no integer key
      collides with the key of a non-numeric, non-string value. */
  lemma IntKeysInjective(v: JsValue, w: JsValue)
    requires v.JsInt? && !w.JsString? && v != w
    ensures ToPropertyKey(v) != ToPropertyKey(w)
  {
    if w.JsInt? {
      var m, n := v.n, w.n;
      if (m < 0) == (n < 0) {
        var a := if m < 0 then -m else m;
        var b := if n < 0 then -n else n;
        DecimalRoundTrip(a);
        DecimalRoundTrip(b);
        if m < 0 {
          assert IntToDecimal(m)[1..] == NatToDecimal(a);
          assert IntToDecimal(n)[1..] == NatToDecimal(b);
        }
      } else {
        assert IntToDecimal(m)[0] != IntToDecimal(n)[0];
      }
    } else {
      var k := ToPropertyKey(w);
      assert k[0] !in "-0123456789";
      assert ToPropertyKey(v)[0] in "-0123456789";
    }
  }

  // ---------------------------------------------------------------------
  // Case mapping (ASCII letters only)

  function UpperChar(c: char): char {
    if 'a' <= c <= 'z' then (c as int - 32) as char else c
  }

  function LowerChar(c: char): char {
    if 'A' <= c <= 'Z' then (c as int + 32) as char else c
  }

  /** `s.toUpperCase()` */
  function ToUpperCase(s: string): (r: string)
    ensures |r| == |s|
    ensures forall i :: 0 <= i < |s| ==> r[i] == UpperChar(s[i])
    ensures forall i :: 0 <= i < |r| ==> !('a' <= r[i] <= 'z')
  {
    seq(|s|, i requires 0 <= i < |s| => UpperChar(s[i]))
  }

  /** `s.toLowerCase()` */
  function ToLowerCase(s: string): (r: string)
    ensures |r| == |s|
    ensures forall i :: 0 <= i < |s| ==> r[i] == LowerChar(s[i])
    ensures forall i :: 0 <= i < |r| ==> !('A' <= r[i] <= 'Z')
  {
    seq(|s|, i requires 0 <= i < |s| => LowerChar(s[i]))
  }

  /** Lower-casing is idempotent and leaves strings without capitals alone. */
  lemma LowerCaseFixesLowerStrings(s: string)
    requires forall i :: 0 <= i < |s| ==> !('A' <= s[i] <= 'Z')
    ensures ToLowerCase(s) == s
  {
  }

  lemma UpperCaseIdempotent(s: string)
    ensures ToUpperCase(ToUpperCase(s)) == ToUpperCase(s)
  {
  }
}
