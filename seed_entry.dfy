/**
 * The landing page's lucky-number form and the fortune page's seed. The raw
 * text of the input is accepted when it is non-empty and `parseInt(text, 10)`
 * gives a number from 1 to 100; the raw text itself, not the number, becomes
 * the seed. The fortune page falls back to `default` when no seed, or an
 * empty one, reaches it.
 */
module SeedEntry {
  import opened Optional
  import opened JsText

  // ----------------------------------------------------------------------------
  // parseInt(s, 10)
  // ----------------------------------------------------------------------------

  /** The value of a string of decimal digits, most significant first. */
  function DigitsValue(s: string): nat
    requires forall i :: 0 <= i < |s| ==> IsDigit(s[i])
  {
    if s == [] then 0 else DigitsValue(s[..|s| - 1]) * 10 + DigitValue(s[|s| - 1])
  }

  /** The value of the longest run of decimal digits at the start of `u`; `None` when there is none. */
  function ParseDigits(u: string): (r: Option<nat>)
    ensures r.Some? <==> u != [] && IsDigit(u[0])
  {
    var k := DigitPrefixLength(u);
    if k == 0 then None else Some(DigitsValue(u[..k]))
  }

  /** One optional `+` or `-`, then the digits, negated after `-`. */
  function ParseSigned(t: string): (r: Option<int>)
    ensures r.Some? && r.value < 0 ==> t != [] && t[0] == '-'
    ensures r.Some? ==> (t != [] && IsDigit(t[0])) || (|t| > 1 && IsDigit(t[1]))
  {
    if t != [] && t[0] == '-' then
      match ParseDigits(t[1..]) case None => None case Some(v) => Some(-(v as int))
    else if t != [] && t[0] == '+' then
      ParseDigits(t[1..])
    else
      ParseDigits(t)
  }

  /**
   * `parseInt(s, 10)`: skip the leading white space, take one optional `+` or
   * `-`, then the longest run of decimal digits; everything after that run is
   * ignored. `None` stands for NaN, when the run is empty. A negative zero is
   * returned as 0.
   */
  function ParseInt(s: string): (r: Option<int>)
    ensures r.Some? ==> exists i :: 0 <= i < |s| && IsDigit(s[i])
  {
    var k := WhiteSpacePrefixLength(s);
    var r := ParseSigned(s[k..]);
    assert r.Some? ==> IsDigit(s[k]) || (k + 1 < |s| && IsDigit(s[k + 1]));
    r
  }

  /** The shortest decimal numeral of `n`, the partner of `DigitsValue`. */
  function DecimalString(n: nat): (s: string)
    ensures |s| >= 1 && forall i :: 0 <= i < |s| ==> IsDigit(s[i])
    ensures n >= 10 ==> s[0] != '0'
  {
    if n < 10 then [DigitChar(n)] else DecimalString(n / 10) + [DigitChar(n % 10)]
  }

  /** `k` zero digits. */
  function Zeros(k: nat): (z: string)
    ensures |z| == k && forall i :: 0 <= i < k ==> z[i] == '0'
  {
    seq(k, _ => '0')
  }

  /** The numeral of `n` written with `zeros` leading zeros, as a user may type it. */
  function Numeral(zeros: nat, n: nat): (s: string)
    ensures |s| >= 1 && forall i :: 0 <= i < |s| ==> IsDigit(s[i])
  {
    Zeros(zeros) + DecimalString(n)
  }

  /** Reading back a numeral gives the number it was written from. */
  lemma {:induction false} DecimalStringValue(n: nat)
    ensures DigitsValue(DecimalString(n)) == n
  {
    var s := DecimalString(n);
    if n >= 10 {
      DecimalStringValue(n / 10);
      assert s[..|s| - 1] == DecimalString(n / 10);
    }
  }

  /** Zero digits are worth nothing. */
  lemma {:induction false} ZerosValue(k: nat)
    ensures DigitsValue(Zeros(k)) == 0
  {
    if k > 0 {
      ZerosValue(k - 1);
      assert Zeros(k)[..k - 1] == Zeros(k - 1);
    }
  }

  /** Leading zeros do not change the value of a string of digits. */
  lemma {:induction false} LeadingZerosValue(k: nat, d: string)
    requires forall i :: 0 <= i < |d| ==> IsDigit(d[i])
    ensures DigitsValue(Zeros(k) + d) == DigitsValue(d)
    decreases |d|
  {
    var s := Zeros(k) + d;
    if d == [] {
      assert s == Zeros(k);
      ZerosValue(k);
    } else {
      LeadingZerosValue(k, d[..|d| - 1]);
      assert s[..|s| - 1] == Zeros(k) + d[..|d| - 1];
      assert s[|s| - 1] == d[|d| - 1];
    }
  }

  /** A numeral with leading zeros reads back as the number it was written from. */
  lemma NumeralValue(zeros: nat, n: nat)
    ensures DigitsValue(Numeral(zeros, n)) == n
  {
    LeadingZerosValue(zeros, DecimalString(n));
    DecimalStringValue(n);
  }

  /** Without leading zeros a numeral is the shortest one. */
  lemma NumeralWithoutZeros(n: nat)
    ensures Numeral(0, n) == DecimalString(n)
  {
    assert Zeros(0) == [];
  }

  /** A run of white space is skipped up to the first character that is not white space. */
  lemma WhiteSpaceThenText(ws: string, rest: string)
    requires forall i :: 0 <= i < |ws| ==> IsWhiteSpace(ws[i])
    requires rest != [] && !IsWhiteSpace(rest[0])
    ensures WhiteSpacePrefixLength(ws + rest) == |ws|
  {
    var s := ws + rest;
    assert s[|ws|] == rest[0];
    assert forall i :: 0 <= i < |ws| ==> s[i] == ws[i];
  }

  /** The digit run of a numeral followed by text that does not start with a digit is the numeral. */
  lemma DigitsThenText(d: string, rest: string)
    requires forall i :: 0 <= i < |d| ==> IsDigit(d[i])
    requires rest == [] || !IsDigit(rest[0])
    ensures DigitPrefixLength(d + rest) == |d|
  {
    var s := d + rest;
    assert |d| < |s| ==> s[|d|] == rest[0];
    assert forall i :: 0 <= i < |d| ==> s[i] == d[i];
  }

  /** The digits of a numeral followed by text that does not start with a digit read back as its number. */
  lemma ParseDigitsRoundTrip(zeros: nat, n: nat, rest: string)
    requires rest == [] || !IsDigit(rest[0])
    ensures ParseDigits(Numeral(zeros, n) + rest) == Some(n)
  {
    var d := Numeral(zeros, n);
    DigitsThenText(d, rest);
    assert (d + rest)[..|d|] == d;
    NumeralValue(zeros, n);
  }

  /** Without a sign, the digits alone give the number. */
  lemma ParseSignedUnsigned(u: string)
    requires u != [] && IsDigit(u[0])
    ensures ParseSigned(u) == ParseDigits(u)
  {
  }

  /** A plus sign changes nothing. */
  lemma ParseSignedPlus(u: string)
    ensures ParseSigned("+" + u) == ParseDigits(u)
  {
    assert ("+" + u)[1..] == u;
  }

  /** A minus sign negates the number. */
  lemma ParseSignedMinus(u: string)
    requires ParseDigits(u).Some?
    ensures ParseSigned("-" + u) == Some(-(ParseDigits(u).value as int))
  {
    assert ("-" + u)[1..] == u;
  }

  /** An optional sign before such a numeral gives its number, negated after `-`. */
  lemma ParseSignedRoundTrip(sign: string, zeros: nat, n: nat, rest: string)
    requires sign == "" || sign == "+" || sign == "-"
    requires rest == [] || !IsDigit(rest[0])
    ensures ParseSigned(sign + (Numeral(zeros, n) + rest)) == Some(if sign == "-" then -(n as int) else n)
  {
    var u := Numeral(zeros, n) + rest;
    ParseDigitsRoundTrip(zeros, n, rest);
    if sign == "" {
      assert sign + u == u;
      ParseSignedUnsigned(u);
    } else if sign == "+" {
      ParseSignedPlus(u);
    } else {
      ParseSignedMinus(u);
    }
  }

  /** Leading white space is skipped: what follows it is read as a signed number. */
  lemma ParseIntSkipsWhiteSpace(ws: string, t: string)
    requires forall i :: 0 <= i < |ws| ==> IsWhiteSpace(ws[i])
    requires t == [] || !IsWhiteSpace(t[0])
    ensures ParseInt(ws + t) == ParseSigned(t)
  {
    if t == [] {
      assert ws + t == ws;
      assert WhiteSpacePrefixLength(ws) == |ws|;
    } else {
      WhiteSpaceThenText(ws, t);
      assert (ws + t)[|ws|..] == t;
    }
  }

  /** A signed numeral starts with its sign or a digit, never with white space. */
  lemma SignedNumeralStartsClean(sign: string, zeros: nat, n: nat, rest: string)
    requires sign == "" || sign == "+" || sign == "-"
    ensures var t := sign + (Numeral(zeros, n) + rest); t != [] && !IsWhiteSpace(t[0])
  {
    var t := sign + (Numeral(zeros, n) + rest);
    if sign == "" {
      assert t[0] == Numeral(zeros, n)[0];
    } else {
      assert t[0] == sign[0];
    }
  }

  /**
   * The round trip of `parseInt`: leading white space, an optional sign, the
   * numeral of `n` with any number of leading zeros and any text that does not
   * start with a digit read back as `n`, negated after a minus sign.
   */
  lemma ParseIntRoundTrip(ws: string, sign: string, zeros: nat, n: nat, rest: string)
    requires forall i :: 0 <= i < |ws| ==> IsWhiteSpace(ws[i])
    requires sign == "" || sign == "+" || sign == "-"
    requires rest == [] || !IsDigit(rest[0])
    ensures ParseInt(ws + (sign + (Numeral(zeros, n) + rest))) == Some(if sign == "-" then -(n as int) else n)
  {
    var t := sign + (Numeral(zeros, n) + rest);
    SignedNumeralStartsClean(sign, zeros, n, rest);
    ParseIntSkipsWhiteSpace(ws, t);
    ParseSignedRoundTrip(sign, zeros, n, rest);
  }

  /** Text with no digit after the white space and the optional sign is NaN; in particular the empty text. */
  lemma ParseIntNaN(ws: string, sign: string, rest: string)
    requires forall i :: 0 <= i < |ws| ==> IsWhiteSpace(ws[i])
    requires sign == "" || sign == "+" || sign == "-"
    requires rest == [] || (!IsDigit(rest[0]) && (sign == "" ==> !IsWhiteSpace(rest[0]) && rest[0] != '+' && rest[0] != '-'))
    ensures ParseInt(ws + (sign + rest)) == None
  {
    var t := sign + rest;
    ParseIntSkipsWhiteSpace(ws, t);
    if sign == "+" {
      ParseSignedPlus(rest);
    } else if sign == "-" {
      assert t[1..] == rest;
    } else {
      assert t == rest;
    }
  }

  // ----------------------------------------------------------------------------
  // The form and the fallback
  // ----------------------------------------------------------------------------

  const InvalidSeedMessage := "Please enter a valid number between 1 and 100."

  /**
   * The check on the raw input: non-empty, a number, and from 1 to 100. The
   * test for the empty text is redundant: the empty text is not a number.
   */
  predicate Accepts(s: string)
    ensures Accepts(s) <==> ParseInt(s).Some? && 1 <= ParseInt(s).value <= 100
  {
    s != "" && ParseInt(s).Some? && 1 <= ParseInt(s).value <= 100
  }

  /** What submitting the form does. */
  datatype Submit = Navigate(seed: string) | Alert(message: string)

  /**
   * Submitting the form: move to the fortune page carrying the raw text as the
   * seed, or show the alert.
   */
  function HandleSubmit(s: string): (r: Submit)
    ensures r.Navigate? <==> ParseInt(s).Some? && 1 <= ParseInt(s).value <= 100
    ensures r.Navigate? ==> r.seed == s && r.seed != ""
    ensures r.Alert? ==> r.message == InvalidSeedMessage
  {
    if Accepts(s) then Navigate(s) else Alert(InvalidSeedMessage)
  }

  /** The seed the fortune page reads from the navigation state: `default` when it is missing or empty. */
  function FortuneSeed(state: Option<string>): (seed: string)
    ensures seed != ""
    ensures state.Some? && state.value != "" ==> seed == state.value
    ensures state.None? || state.value == "" ==> seed == "default"
  {
    if state.Some? && state.value != "" then state.value else "default"
  }

  /** A seed that passed the form reaches the fortune page unchanged: the fallback never replaces it. */
  lemma AcceptedSeedReachesFortunePage(s: string)
    requires HandleSubmit(s).Navigate?
    ensures FortuneSeed(Some(HandleSubmit(s).seed)) == s
  {
  }

  /**
   * Numbers from 1 to 100, written in decimal with optional leading white
   * space, an optional plus sign, any number of leading zeros and any trailing
   * text that does not start with a digit, are all accepted, and the raw text
   * is the seed.
   */
  lemma AcceptsNumbersInRange(ws: string, plus: bool, zeros: nat, n: nat, rest: string)
    requires forall i :: 0 <= i < |ws| ==> IsWhiteSpace(ws[i])
    requires 1 <= n <= 100
    requires rest == [] || !IsDigit(rest[0])
    ensures var s := ws + ((if plus then "+" else "") + (Numeral(zeros, n) + rest));
      HandleSubmit(s) == Navigate(s)
  {
    ParseIntRoundTrip(ws, if plus then "+" else "", zeros, n, rest);
  }

  /** Zero, negative numbers and numbers above 100 are refused, whatever surrounds them and however many leading zeros they have. */
  lemma RefusesNumbersOutOfRange(ws: string, sign: string, zeros: nat, n: nat, rest: string)
    requires forall i :: 0 <= i < |ws| ==> IsWhiteSpace(ws[i])
    requires sign == "" || sign == "+" || sign == "-"
    requires rest == [] || !IsDigit(rest[0])
    requires n == 0 || n > 100 || sign == "-"
    ensures HandleSubmit(ws + (sign + (Numeral(zeros, n) + rest))) == Alert(InvalidSeedMessage)
  {
    ParseIntRoundTrip(ws, sign, zeros, n, rest);
  }

  /** A plain numeral is accepted as typed. */
  lemma PlainExample()
    ensures HandleSubmit("42") == Navigate("42")
  {
    NumeralWithoutZeros(42);
    assert "42" == "" + ("" + (Numeral(0, 42) + ""));
    AcceptsNumbersInRange("", false, 0, 42, "");
  }

  /** A signed numeral with white space before it is accepted as typed. */
  lemma SpacedPlusExample()
    ensures HandleSubmit(" +7") == Navigate(" +7")
  {
    NumeralWithoutZeros(7);
    assert " +7" == " " + ("+" + (Numeral(0, 7) + ""));
    AcceptsNumbersInRange(" ", true, 0, 7, "");
  }

  /** Exponent and decimal notation are cut at the first non-digit: `1e2` reads as 1 and `3.7` as 3. */
  lemma CutAtNonDigitExamples()
    ensures HandleSubmit("1e2") == Navigate("1e2")
    ensures HandleSubmit("3.7") == Navigate("3.7")
  {
    NumeralWithoutZeros(1);
    assert "1e2" == "" + ("" + (Numeral(0, 1) + "e2"));
    AcceptsNumbersInRange("", false, 0, 1, "e2");
    NumeralWithoutZeros(3);
    assert "3.7" == "" + ("" + (Numeral(0, 3) + ".7"));
    AcceptsNumbersInRange("", false, 0, 3, ".7");
  }

  /** Zero is refused. */
  lemma ZeroExample()
    ensures HandleSubmit("0") == Alert(InvalidSeedMessage)
  {
    NumeralWithoutZeros(0);
    assert "0" == "" + ("" + (Numeral(0, 0) + ""));
    RefusesNumbersOutOfRange("", "", 0, 0, "");
  }

  /** A negative number is refused. */
  lemma NegativeExample()
    ensures HandleSubmit("-5") == Alert(InvalidSeedMessage)
  {
    NumeralWithoutZeros(5);
    assert "-5" == "" + ("-" + (Numeral(0, 5) + ""));
    RefusesNumbersOutOfRange("", "-", 0, 5, "");
  }

  /** One past the top of the range is refused. */
  lemma AboveRangeExample()
    ensures HandleSubmit("101") == Alert(InvalidSeedMessage)
  {
    assert DecimalString(10) == DecimalString(1) + ['0'] == "10";
    assert DecimalString(101) == DecimalString(10) + ['1'] == "101";
    NumeralWithoutZeros(101);
    assert "101" == "" + ("" + (Numeral(0, 101) + ""));
    RefusesNumbersOutOfRange("", "", 0, 101, "");
  }

  /** The empty text, a word and a lone sign are not numbers and are refused. */
  lemma NotANumberExamples()
    ensures HandleSubmit("") == Alert(InvalidSeedMessage)
    ensures HandleSubmit("abc") == Alert(InvalidSeedMessage)
    ensures HandleSubmit("+") == Alert(InvalidSeedMessage)
  {
    assert "abc" == "" + ("" + "abc");
    ParseIntNaN("", "", "abc");
    assert "+" == "" + ("+" + "");
    ParseIntNaN("", "+", "");
  }

  /** Leading zeros: `007` and `7` are both accepted, and carried as different seeds. */
  lemma LeadingZerosMakeAnotherSeed()
    ensures HandleSubmit("007") == Navigate("007") && HandleSubmit("7") == Navigate("7")
    ensures HandleSubmit("007").seed != HandleSubmit("7").seed
  {
    assert Zeros(2) == "00";
    assert "007" == "" + ("" + (Numeral(2, 7) + ""));
    AcceptsNumbersInRange("", false, 2, 7, "");
    NumeralWithoutZeros(7);
    assert "7" == "" + ("" + (Numeral(0, 7) + ""));
    AcceptsNumbersInRange("", false, 0, 7, "");
  }

  /** Zeros alone are zero and refused. */
  lemma DoubleZeroExample()
    ensures HandleSubmit("00") == Alert(InvalidSeedMessage)
  {
    assert Zeros(1) == "0";
    assert "00" == "" + ("" + (Numeral(1, 0) + ""));
    RefusesNumbersOutOfRange("", "", 1, 0, "");
  }

  /** A leading zero does not bring 101 into range. */
  lemma PaddedAboveRangeExample()
    ensures HandleSubmit("0101") == Alert(InvalidSeedMessage)
  {
    assert Zeros(1) == "0";
    assert DecimalString(10) == DecimalString(1) + ['0'] == "10";
    assert DecimalString(101) == DecimalString(10) + ['1'] == "101";
    assert "0101" == "" + ("" + (Numeral(1, 101) + ""));
    RefusesNumbersOutOfRange("", "", 1, 101, "");
  }
}
