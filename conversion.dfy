/**
 * The two conversions applied to raw person records: splitting a list written as
 * "a, b, c", and turning a numeric description such as "1,358" or "unknown" into
 * an optional number.
 */
module Conversion {
  import opened Wrappers
  import opened Text

  /** The separator `splitCommaSeparatedList` uses when none is given. */
  const DefaultListSeparator: string := ", "

  /** `input.split(splitBy)`, with `splitBy` defaulting to ", ". */
  function SplitCommaSeparatedList(input: string, splitBy: string := DefaultListSeparator): (items: seq<string>)
    ensures splitBy != [] ==> |items| >= 1
    ensures splitBy != [] && IndexOf(input, splitBy).None? ==> items == [input]
  {
    Split(input, splitBy)
  }

  /** The items of a split list, joined again with the separator, give back the input. */
  lemma SplitCommaSeparatedListRoundTrip(input: string, splitBy: string)
    ensures Join(SplitCommaSeparatedList(input, splitBy), splitBy) == input
  {
    JoinSplit(input, splitBy);
  }

  /** With a non-empty separator no item contains the separator. */
  lemma SplitCommaSeparatedListItems(input: string, splitBy: string)
    requires splitBy != []
    ensures forall k :: 0 <= k < |SplitCommaSeparatedList(input, splitBy)| ==>
      !Includes(SplitCommaSeparatedList(input, splitBy)[k], splitBy)
  {
    SplitPiecesExcludeSeparator(input, splitBy);
  }

  // ---------------------------------------------------------------------------
  // Number.parseFloat, restricted to plain decimal notation

  /**
   * The characters `parseFloat` skips before the number: ECMAScript's white space
   * (tab, vertical tab, form feed, the byte order mark and every space separator of
   * Unicode category Zs) and its line terminators.
   */
  predicate IsLeadingSpace(c: char) {
    || c == '\t' || c == '\U{B}' || c == '\U{C}' || c == '\U{FEFF}'
    || c == ' ' || c == '\U{A0}' || c == '\U{1680}' || '\U{2000}' <= c <= '\U{200A}'
    || c == '\U{202F}' || c == '\U{205F}' || c == '\U{3000}'
    || c == '\n' || c == '\r' || c == '\U{2028}' || c == '\U{2029}'
  }

  /** `s` without its leading white space. */
  function TrimStart(s: string): (r: string)
    ensures |r| <= |s| && r == s[|s| - |r|..]
    ensures r != [] ==> !IsLeadingSpace(r[0])
  {
    if s != [] && IsLeadingSpace(s[0]) then TrimStart(s[1..]) else s
  }

  /** The longest prefix of `s` made of decimal digits. */
  function LeadingDigits(s: string): (ds: string)
    ensures ds <= s && AllDigits(ds)
    ensures |ds| < |s| ==> !IsDigit(s[|ds|])
  {
    if s != [] && IsDigit(s[0]) then [s[0]] + LeadingDigits(s[1..]) else ""
  }

  function Pow10(n: nat): (p: nat)
    ensures p >= 1
  {
    if n == 0 then 1 else 10 * Pow10(n - 1)
  }

  /** The value of the digits after a decimal point. */
  function FractionValue(ds: string): (v: real)
    requires AllDigits(ds)
    ensures 0.0 <= v
  {
    DigitsValue(ds) as real / Pow10(|ds|) as real
  }

  /** The digits after a leading decimal point of `rest`, if it starts with one. */
  function FractionDigits(rest: string): (ds: string)
    ensures AllDigits(ds)
  {
    if rest != [] && rest[0] == '.' then LeadingDigits(rest[1..]) else ""
  }

  /** The unsigned part of `parseFloat`: digits [. digits], with at least one digit. */
  function ParseUnsigned(u: string): (r: Option<real>)
    ensures r.Some? ==> 0.0 <= r.value
  {
    var whole := LeadingDigits(u);
    var fraction := FractionDigits(u[|whole|..]);
    if |whole| + |fraction| == 0 then None
    else Some(DigitsValue(whole) as real + FractionValue(fraction))
  }

  /**
   * `Number.parseFloat(s)`: the longest prefix of the form
   * [white space][sign] digits [. digits], where at least one digit is present;
   * `None` stands for NaN, the result when no such prefix exists.
   */
  function ParseFloat(s: string): (r: Option<real>)
  {
    ParseSigned(TrimStart(s))
  }

  /** `parseFloat` after the leading white space: an optional sign, then the unsigned part. */
  function ParseSigned(t: string): (r: Option<real>)
  {
    if t != [] && t[0] == '-' then
      match ParseUnsigned(t[1..])
      case None => None
      case Some(m) => Some(-m)
    else if t != [] && t[0] == '+' then ParseUnsigned(t[1..])
    else ParseUnsigned(t)
  }

  /**
   * `convertToNumber`: every "," is removed (by splitting on "," and joining with
   * ""), then the rest is parsed; NaN becomes `None`, so no NaN is ever returned.
   */
  function ConvertToNumber(numericDescription: string): (r: Option<real>)
    ensures r == ParseFloat(Strip(numericDescription, ','))
  {
    SplitJoinStrips(numericDescription, ',');
    ParseFloat(Join(Split(numericDescription, ","), ""))
  }

  lemma {:induction false} LeadingDigitsOfDigits(s: string)
    requires AllDigits(s)
    ensures LeadingDigits(s) == s
  {
    if s != [] { LeadingDigitsOfDigits(s[1..]); }
  }

  lemma FractionValueOfNothing()
    ensures FractionValue("") == 0.0
  {
    assert DigitsValue("") == 0 && Pow10(0) == 1;
  }

  lemma ParseUnsignedOfDigits(s: string)
    requires s != [] && AllDigits(s)
    ensures ParseUnsigned(s) == Some(DigitsValue(s) as real)
  {
    LeadingDigitsOfDigits(s);
    assert s[|s|..] == "";
    assert FractionDigits("") == "";
    FractionValueOfNothing();
  }

  /** Parsing the decimal text of a natural number gives that number. */
  lemma ParseFloatOfNatToString(n: nat)
    ensures ParseFloat(NatToString(n)) == Some(n as real)
  {
    var s := NatToString(n);
    assert IsDigit(s[0]) && !IsLeadingSpace(s[0]) && s[0] != '-' && s[0] != '+';
    assert TrimStart(s) == s;
    assert ParseFloat(s) == ParseUnsigned(s);
    ParseUnsignedOfDigits(s);
    DigitsValueOfNatToString(n);
  }

  /**
   * Converting the text of an already converted whole number gives the same number
   * back: the numeric coercion is stable under re-conversion.
   */
  lemma ConvertToNumberOfNatToString(n: nat)
    ensures ConvertToNumber(NatToString(n)) == Some(n as real)
  {
    var s := NatToString(n);
    StripAbsent(s, ',');
    ParseFloatOfNatToString(n);
  }

  /** A description that starts with a letter, such as "unknown" or "n/a", is NaN. */
  lemma ConvertToNumberOfWord(s: string)
    requires s != [] && 'a' <= s[0] <= 'z'
    ensures ConvertToNumber(s) == None
  {
    var c := s[0];
    var t := Strip(s, ',');
    assert t == [c] + Strip(s[1..], ',');
    assert t != [] && t[0] == c;
    assert !IsLeadingSpace(c) && !IsDigit(c) && c != '-' && c != '+' && c != '.';
    assert TrimStart(t) == t;
    assert LeadingDigits(t) == "";
    assert t[0..] == t;
    assert FractionDigits(t) == "";
    assert ParseUnsigned(t) == None;
  }

  lemma ConvertToNumberOfPlainNumber()
    ensures ConvertToNumber("172") == Some(172.0)
  {
    assert NatToString(172) == "172" by {
      assert NatToString(17) == "17" by { assert NatToString(1) == "1"; }
    }
    ConvertToNumberOfNatToString(172);
  }

  lemma StripGroupedNumber()
    ensures Strip("1,358", ',') == "1358"
  {
    var s := "1,358";
    assert s[..1] == "1" && s[2..] == "358";
    StripAround(s, ',', 1);
    StripAbsent("1", ',');
    StripAbsent("358", ',');
  }

  lemma ConvertToNumberOfGroupedNumber()
    ensures ConvertToNumber("1,358") == Some(1358.0)
  {
    assert NatToString(1358) == "1358" by {
      assert NatToString(135) == "135" by {
        assert NatToString(13) == "13" by { assert NatToString(1) == "1"; }
      }
    }
    StripGroupedNumber();
    ParseFloatOfNatToString(1358);
  }

  /** `parseFloat` skips a prefix made only of white space. */
  lemma {:induction false} TrimStartSkips(w: string, t: string)
    requires forall i :: 0 <= i < |w| ==> IsLeadingSpace(w[i])
    ensures TrimStart(w + t) == TrimStart(t)
  {
    if w != [] {
      assert (w + t)[0] == w[0] && (w + t)[1..] == w[1..] + t;
      TrimStartSkips(w[1..], t);
    } else {
      assert w + t == t;
    }
  }

  /**
   * White space before the text of a whole number, such as a no-break space or a
   * vertical tab, is skipped: the number is still read.
   */
  lemma ConvertToNumberSkipsWhiteSpace(w: string, n: nat)
    requires forall i :: 0 <= i < |w| ==> IsLeadingSpace(w[i])
    ensures ConvertToNumber(w + NatToString(n)) == Some(n as real)
  {
    var t := NatToString(n);
    assert ',' !in w by {
      forall i | 0 <= i < |w| ensures w[i] != ',' { assert IsLeadingSpace(w[i]); }
    }
    StripAppend(w, t, ',');
    StripAbsent(w, ',');
    StripAbsent(t, ',');
    assert Strip(w + t, ',') == w + t;
    TrimStartSkips(w, t);
    ParseFloatReadsTrimmed(w + t, t);
    ParseFloatOfNatToString(n);
  }

  /** `parseFloat` reads only what is left after the leading white space. */
  lemma ParseFloatReadsTrimmed(s: string, t: string)
    requires TrimStart(s) == TrimStart(t)
    ensures ParseFloat(s) == ParseFloat(t)
  {
  }

  lemma ConvertToNumberOfUnknown()
    ensures ConvertToNumber("unknown") == None
  {
    ConvertToNumberOfWord("unknown");
  }
}
