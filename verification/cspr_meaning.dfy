/** What a printed amount is, to the letter: its sign, its grouped digits, its fraction and its suffix. */
module CsprMeaning {
  import opened Decimal
  import opened Cspr
  import opened Wrappers

  /** The digits before the point are grouped in threes and have no leading zeros. */
  ghost predicate IsWhole(text: string, n: nat) {
    WellGrouped(text) && AllDigits(Ungroup(text)) && NoLeadingZero(Ungroup(text)) && Value(Ungroup(text)) == n
  }

  /** Up to nine digits without trailing zeros, which stand for that many billionths. */
  ghost predicate IsFraction(text: string, n: nat) {
    && AllDigits(text) && |text| <= 9 && (text != "" ==> text[|text| - 1] != '0')
    && Value(text + Zeros(9 - |text|)) == n
  }

  ghost predicate IsPrinted(text: string, v: int, suffix: bool, whole: string, fraction: string) {
    var amount := if v < 0 then -v else v;
    && text == (if v < 0 then "-" else "") + whole + (if fraction == "" then "" else "." + fraction) +
               (if suffix then " CSPR" else "")
    && IsWhole(whole, amount / 1_000_000_000) && IsFraction(fraction, amount % 1_000_000_000)
  }

  lemma WholeIsGrouped(text: string, n: nat)
    ensures IsWhole(text, n) <==> text == Group(ToText(n))
  {
    TextRoundTrip(n);
    ToTextHasNoLeadingZero(n);
    GroupIsTheGrouping(ToText(n), text);
    if IsWhole(text, n) {
      ValueRoundTrip(Ungroup(text));
    }
    hide Group, Ungroup, ToText;
  }

  /** The digits after the point, as the printer makes them. */
  function FractionText(n: nat): string {
    if n == 0 then "" else Trimmed(PadStart(ToText(n), 9))
  }

  lemma Filled(text: string)
    requires |text| <= 9
    ensures (text + Zeros(9))[..9] == text + Zeros(9 - |text|)
  {
  }

  lemma FractionIsTrimmed(text: string, n: nat)
    requires n < 1_000_000_000
    ensures IsFraction(text, n) <==> text == FractionText(n)
  {
    hide Trimmed, PadStart, ToText, Value;
    ValueOfZeros(9);
    assert "" + Zeros(9) == Zeros(9);
    if n > 0 {
      FractionComesBack(n);
      Filled(FractionText(n));
    }
    if IsFraction(text, n) {
      Filled(text);
      if text == "" {
        assert n == 0;
      } else {
        FractionIsPrinted(text, n);
      }
    }
  }

  /** A text is the printed amount if and only if it is made of these parts. */
  lemma PrintedIs(text: string, v: int, suffix: bool)
    ensures text == FormatCspr(v, suffix) <==> exists whole, fraction :: IsPrinted(text, v, suffix, whole, fraction)
  {
    var amount := if v < 0 then -v else v;
    var whole, fraction := Group(ToText(amount / 1_000_000_000)), FractionText(amount % 1_000_000_000);
    WholeIsGrouped(whole, amount / 1_000_000_000);
    FractionIsTrimmed(fraction, amount % 1_000_000_000);
    UnsignedIs(amount);
    hide Group, FractionText, IsWhole, IsFraction, Unsigned;
    SignedIs(v, suffix, amount, whole, fraction);
    if text == FormatCspr(v, suffix) {
      assert IsPrinted(text, v, suffix, whole, fraction);
    }
    if w, f :| IsPrinted(text, v, suffix, w, f) {
      WholeIsGrouped(w, amount / 1_000_000_000);
      FractionIsTrimmed(f, amount % 1_000_000_000);
    }
  }

  lemma UnsignedIs(v: nat)
    ensures var fraction := FractionText(v % 1_000_000_000);
      && (fraction == "" <==> v % 1_000_000_000 == 0)
      && Unsigned(v) == Group(ToText(v / 1_000_000_000)) + if fraction == "" then "" else "." + fraction
  {
    if v % 1_000_000_000 != 0 {
      FractionComesBack(v % 1_000_000_000);
    }
    hide Group, Trimmed, PadStart, ToText;
  }

  lemma SignedIs(v: int, suffix: bool, amount: nat, whole: string, fraction: string)
    requires amount == if v < 0 then -v else v
    requires Unsigned(amount) == whole + if fraction == "" then "" else "." + fraction
    ensures FormatCspr(v, suffix) ==
      (if v < 0 then "-" else "") + whole + (if fraction == "" then "" else "." + fraction) +
      (if suffix then " CSPR" else "")
  {
    hide Unsigned;
    var tail := if fraction == "" then "" else "." + fraction;
    assert "-" + (whole + tail) == "-" + whole + tail;
    assert "" + whole + tail == whole + tail;
  }

  /** What stands before the first point. */
  ghost predicate BeforePoint(text: string, before: string) {
    '.' !in before && (text == before || (before + "." <= text))
  }

  /**
   * A text is printed as the integer read from what stands before its first point; one that cannot be read is given
   * back as it is.
   */
  lemma TextPrintedIs(read: BigIntReader, text: string, suffix: bool, before: string)
    requires BeforePoint(text, before)
    ensures match read(before)
      case None => FormatText(read, text, suffix) == text
      case Some(v) => exists whole, fraction :: IsPrinted(FormatText(read, text, suffix), v, suffix, whole, fraction)
  {
    PointIs(text, before);
    var found := read(before);
    if found.Some? {
      PrintedIs(FormatText(read, text, suffix), found.value, suffix);
    }
    hide FormatCspr, IsPrinted;
  }

  lemma PointIs(text: string, before: string)
    requires BeforePoint(text, before)
    ensures text[..Point(text)] == before
  {
    var p := Point(text);
    assert forall i | 0 <= i < |before| :: before[i] in before && text[i] == before[i];
    if text != before {
      assert text[|before|] == (before + ".")[|before|] == '.';
    }
  }

  // ---- What is read --------------------------------------------------------------------------------

  ghost predicate Digits(text: string) {
    text != "" && AllDigits(text)
  }

  /** Digits, with or without a point and more digits. */
  ghost predicate IsDecimalAmount(text: string, whole: string, fraction: string) {
    Digits(whole) && ((text == whole && fraction == "") || (text == whole + "." + fraction && Digits(fraction)))
  }

  /** A fraction filled up with zeros, or cut, to nine digits. */
  function NineOf(fraction: string): string {
    if |fraction| < 9 then fraction + Zeros(9 - |fraction|) else fraction[..9]
  }

  lemma NineOfIs(fraction: string)
    ensures (fraction + Zeros(9))[..9] == NineOf(fraction)
    ensures AllDigits(fraction) ==> AllDigits(NineOf(fraction))
  {
    if |fraction| < 9 {
      Filled(fraction);
    }
  }

  /** The parser takes exactly the decimal amounts. */
  lemma ParsesDecimalAmounts(text: string)
    ensures CsprToMotes(text).Ok? <==> exists whole, fraction :: IsDecimalAmount(text, whole, fraction)
  {
    hide ToText, Value;
    if CsprToMotes(text).Ok? {
      Parts(text);
      hide Whole, Frac, Point;
      assert IsDecimalAmount(text, Whole(text), Frac(text));
    }
    if whole, fraction :| IsDecimalAmount(text, whole, fraction) {
      ParsedIs(text, whole, fraction);
    }
  }

  /** It returns the text of their value in billionths, the fraction filled up with zeros or cut to nine digits. */
  lemma ParsedIs(text: string, whole: string, fraction: string)
    requires IsDecimalAmount(text, whole, fraction)
    ensures AllDigits(fraction) && AllDigits(NineOf(fraction))
    ensures CsprToMotes(text) == Ok(ToText(1_000_000_000 * Value(whole) + Value(NineOf(fraction))))
  {
    hide ToText, Value, Zeros;
    PointAfterDigits(whole, fraction);
    NineOfIs(fraction);
    hide Point, Whole, Frac, NineOf;
  }
}
