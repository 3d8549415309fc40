/**
 * The decimal printer of cli/lib/render.ts and the parser of cli/lib/context.ts: motes to CSPR text and back.
 */
module Cspr {
  import opened Decimal
  import opened Wrappers

  const MOTES_PER_CSPR: nat := 1_000_000_000
  const FRACTION_DIGITS: nat := 9

  datatype Result<+T> = Ok(value: T) | UsageError

  // ---- Thousands separators ------------------------------------------------------------------------

  predicate IsWord(c: char) {
    IsDigit(c) || 'a' <= c <= 'z' || 'A' <= c <= 'Z' || c == '_'
  }

  /** `\b` of a regular expression: exactly one of the neighbouring characters is a word character. */
  predicate WordBoundary(s: string, i: nat)
    requires i <= |s|
  {
    (i > 0 && IsWord(s[i - 1])) != (i < |s| && IsWord(s[i]))
  }

  /** Some number of digit triples follows, and no further digit. */
  predicate TriplesAhead(s: string, i: nat)
    requires i <= |s|
  {
    exists k | 1 <= k <= |s| :: TriplesEnd(s, i, i + 3 * k)
  }

  predicate TriplesEnd(s: string, i: nat, j: nat)
    requires i <= |s|
  {
    i <= j <= |s| && AllDigits(s[i..j]) && (j < |s| ==> !IsDigit(s[j]))
  }

  predicate CommaBefore(s: string, i: nat)
    requires i <= |s|
  {
    !WordBoundary(s, i) && TriplesAhead(s, i)
  }

  /** The text from position i on, with a comma at every place the pattern matches. */
  function GroupFrom(s: string, i: nat): string
    requires i <= |s|
    decreases |s| - i
  {
    (if CommaBefore(s, i) then "," else "") + if i == |s| then "" else [s[i]] + GroupFrom(s, i + 1)
  }

  function Group(s: string): string {
    GroupFrom(s, 0)
  }

  function Ungroup(s: string): string {
    if s == "" then "" else Ungroup(s[..|s| - 1]) + if s[|s| - 1] == ',' then "" else [s[|s| - 1]]
  }

  // ---- The printer ---------------------------------------------------------------------------------

  function Zeros(n: nat): (s: string)
    ensures |s| == n && AllDigits(s)
  {
    seq(n, _ => '0')
  }

  function PadStart(s: string, n: nat): string {
    if |s| >= n then s else Zeros(n - |s|) + s
  }

  /** The text without its trailing zeros. */
  function Trimmed(s: string): string {
    if s != "" && s[|s| - 1] == '0' then Trimmed(s[..|s| - 1]) else s
  }

  function Unsigned(v: nat): string {
    var whole, frac := v / MOTES_PER_CSPR, v % MOTES_PER_CSPR;
    if frac == 0 then Group(ToText(whole))
    else Group(ToText(whole)) + "." + Trimmed(PadStart(ToText(frac), FRACTION_DIGITS))
  }

  function FormatCspr(v: int, suffix: bool): string {
    var signed := if v < 0 then "-" + Unsigned(-v) else Unsigned(v);
    if suffix then signed + " CSPR" else signed
  }

  /** The first decimal point, or the length. */
  function Point(s: string): (p: nat)
    ensures p <= |s| && (forall i | 0 <= i < p :: s[i] != '.') && (p < |s| ==> s[p] == '.')
  {
    if s == "" || s[0] == '.' then 0 else 1 + Point(s[1..])
  }

  /** BigInt of a text: its integer, or None where BigInt throws. */
  type BigIntReader = string -> Option<int>

  /** The printer on a text: what stands before the point is read; a text that cannot be read is returned. */
  function FormatText(read: BigIntReader, text: string, suffix: bool): string {
    match read(text[..Point(text)])
    case None => text
    case Some(v) => FormatCspr(v, suffix)
  }

  // ---- The parser ----------------------------------------------------------------------------------

  function Whole(s: string): string {
    s[..Point(s)]
  }

  function Frac(s: string): string {
    if Point(s) == |s| then "" else s[Point(s) + 1..]
  }

  /** Digits, then perhaps a point and more digits. */
  predicate IsAmount(s: string) {
    Whole(s) != "" && AllDigits(Whole(s)) && (Point(s) < |s| ==> Frac(s) != "" && AllDigits(Frac(s)))
  }

  function CsprToMotes(s: string): Result<string> {
    if !IsAmount(s) then UsageError
    else
      var padded := (Frac(s) + Zeros(FRACTION_DIGITS))[..FRACTION_DIGITS];
      Ok(ToText(Value(Whole(s)) * MOTES_PER_CSPR + Value(padded)))
  }

  // ---- What separators do --------------------------------------------------------------------------

  /** Between digits only, a multiple of three from the end: what the pattern means on a number. */
  lemma CommaPlaces(s: string, i: nat)
    requires AllDigits(s) && i <= |s|
    ensures CommaBefore(s, i) <==> 0 < i < |s| && (|s| - i) % 3 == 0
  {
    if 0 < i < |s| && (|s| - i) % 3 == 0 {
      assert TriplesEnd(s, i, i + 3 * ((|s| - i) / 3));
    }
    if TriplesAhead(s, i) {
      var k :| 1 <= k <= |s| && TriplesEnd(s, i, i + 3 * k);
    }
  }

  /** One to three digits, then groups of a comma and three digits. */
  predicate WellGrouped(t: string)
    decreases |t|
  {
    if |t| <= 3 then t != "" && AllDigits(t)
    else t[|t| - 4] == ',' && AllDigits(t[|t| - 3..]) && WellGrouped(t[..|t| - 4])
  }

  /** The digit at position i, with the comma before it if there is one. */
  function Place(s: string, i: nat): string
    requires i < |s|
  {
    if i > 0 && (|s| - i) % 3 == 0 then [',', s[i]] else [s[i]]
  }

  lemma GroupFromStep(s: string, i: nat)
    requires AllDigits(s) && i <= |s|
    ensures GroupFrom(s, i) == if i == |s| then "" else Place(s, i) + GroupFrom(s, i + 1)
  {
    CommaPlaces(s, i);
    hide CommaBefore;
    if i < |s| && i > 0 && (|s| - i) % 3 == 0 {
      assert "," + ([s[i]] + GroupFrom(s, i + 1)) == [',', s[i]] + GroupFrom(s, i + 1);
    }
  }

  lemma FourPlaces(a: char, b: char, c: char)
    ensures [',', a] + ([b] + ([c] + "")) == "," + [a, b, c]
  {
    assert [c] + "" == [c];
    assert [b] + [c] == [b, c];
    assert [',', a] + [b, c] == [',', a, b, c] == "," + [a, b, c];
  }

  lemma LastGroup(s: string)
    requires AllDigits(s) && |s| > 3
    ensures GroupFrom(s, |s| - 3) == "," + s[|s| - 3..]
  {
    hide GroupFrom;
    var n := |s|;
    var a, b, c := s[n - 3], s[n - 2], s[n - 1];
    GroupFromStep(s, n - 3);
    GroupFromStep(s, n - 2);
    GroupFromStep(s, n - 1);
    GroupFromStep(s, n);
    assert Place(s, n - 3) == [',', a] && Place(s, n - 2) == [b] && Place(s, n - 1) == [c];
    hide Place;
    assert s[n - 3..] == [a, b, c];
    FourPlaces(a, b, c);
  }

  lemma Regroup(a: string, p: string, l: string)
    ensures a + (p + "," + l) == (a + p) + "," + l
  {
  }

  lemma {:induction false} GroupFromSplits(s: string, i: nat)
    requires AllDigits(s) && |s| > 3 && i <= |s| - 3
    ensures GroupFrom(s, i) == GroupFrom(s[..|s| - 3], i) + "," + s[|s| - 3..]
    decreases |s| - i
  {
    hide GroupFrom;
    var n := |s|;
    GroupFromStep(s[..n - 3], i);
    if i == n - 3 {
      LastGroup(s);
    } else {
      GroupFromStep(s, i);
      GroupFromSplits(s, i + 1);
      assert Place(s, i) == Place(s[..n - 3], i);
      hide Place;
      Regroup(Place(s, i), GroupFrom(s[..n - 3], i + 1), s[n - 3..]);
    }
  }

  lemma GroupSplits(s: string)
    requires AllDigits(s)
    ensures Group(s) == if |s| <= 3 then s else Group(s[..|s| - 3]) + "," + s[|s| - 3..]
  {
    if |s| <= 3 {
      GroupFromShort(s, 0);
    } else {
      GroupFromSplits(s, 0);
    }
  }

  lemma {:induction false} GroupFromShort(s: string, i: nat)
    requires AllDigits(s) && |s| <= 3 && i <= |s|
    ensures GroupFrom(s, i) == s[i..]
    decreases |s| - i
  {
    CommaPlaces(s, i);
    if i < |s| {
      GroupFromShort(s, i + 1);
    }
  }

  lemma {:induction false} UngroupConcat(s: string, t: string)
    ensures Ungroup(s + t) == Ungroup(s) + Ungroup(t)
    decreases |t|
  {
    if t == "" {
      assert s + t == s;
    } else {
      UngroupConcat(s, t[..|t| - 1]);
      assert (s + t)[..|s + t| - 1] == s + t[..|t| - 1];
    }
  }

  lemma {:induction false} UngroupPlain(s: string)
    requires ',' !in s
    ensures Ungroup(s) == s
  {
    if s != "" {
      UngroupPlain(s[..|s| - 1]);
    }
  }

  lemma UngroupComma()
    ensures Ungroup(",") == ""
  {
  }

  lemma UngroupLast(s: string, t: string)
    requires ',' !in t
    ensures Ungroup(s + "," + t) == Ungroup(s) + t
  {
    UngroupConcat(s + ",", t);
    UngroupConcat(s, ",");
    UngroupPlain(t);
    UngroupComma();
    hide Ungroup;
    assert Ungroup(s) + "" == Ungroup(s);
  }

  lemma {:induction false} GroupIsWellGrouped(s: string)
    requires AllDigits(s) && s != ""
    ensures WellGrouped(Group(s)) && Ungroup(Group(s)) == s
    decreases |s|
  {
    hide Group, Ungroup;
    GroupSplits(s);
    if |s| <= 3 {
      UngroupPlain(s);
    } else {
      var init, last := s[..|s| - 3], s[|s| - 3..];
      GroupIsWellGrouped(init);
      UngroupLast(Group(init), last);
      assert s == init + last;
      var t := Group(s);
      assert t[..|t| - 4] == Group(init) && t[|t| - 3..] == last;
    }
  }

  lemma {:induction false} WellGroupedIsGroup(t: string)
    requires WellGrouped(t)
    ensures AllDigits(Ungroup(t)) && |Ungroup(t)| >= |t| - (|t| / 4) && Ungroup(t) != "" && t == Group(Ungroup(t))
    decreases |t|
  {
    hide Group, Ungroup;
    if |t| <= 3 {
      UngroupPlain(t);
      GroupSplits(t);
    } else {
      var init, last := t[..|t| - 4], t[|t| - 3..];
      WellGroupedIsGroup(init);
      assert t == init + "," + last;
      UngroupLast(init, last);
      var s := Ungroup(t);
      assert s[..|s| - 3] == Ungroup(init) && s[|s| - 3..] == last;
      GroupSplits(s);
    }
  }

  /**
   * Grouping yields the one text that is grouped in threes from the right and that reads as the number once
   * its commas are removed.
   */
  lemma GroupIsTheGrouping(s: string, t: string)
    requires AllDigits(s) && s != ""
    ensures t == Group(s) <==> WellGrouped(t) && Ungroup(t) == s
  {
    GroupIsWellGrouped(s);
    if WellGrouped(t) {
      WellGroupedIsGroup(t);
    }
  }

  // ---- Reading an amount ---------------------------------------------------------------------------

  function Pow10(k: nat): (p: nat)
    ensures p >= 1
  {
    if k == 0 then 1 else 10 * Pow10(k - 1)
  }

  lemma NinePlaces()
    ensures Pow10(FRACTION_DIGITS) == MOTES_PER_CSPR
  {
    assert Pow10(3) == 1000;
    assert Pow10(6) == 1000 * Pow10(3);
    assert Pow10(9) == 1000 * Pow10(6);
  }

  lemma {:induction false} PowSum(j: nat, k: nat)
    ensures Pow10(j + k) == Pow10(j) * Pow10(k)
    decreases k
  {
    if k > 0 {
      PowSum(j, k - 1);
      Shuffle(Pow10(j), Pow10(k - 1));
    }
  }

  lemma Shuffle(a: nat, b: nat)
    ensures 10 * (a * b) == a * (10 * b)
  {
  }

  lemma {:induction false} ValueConcat(s: string, t: string)
    requires AllDigits(s) && AllDigits(t)
    ensures AllDigits(s + t) && Value(s + t) == Value(s) * Pow10(|t|) + Value(t)
    decreases |t|
  {
    if t == "" {
      assert s + t == s;
    } else {
      var init, last := t[..|t| - 1], t[|t| - 1];
      ValueConcat(s, init);
      assert s + t == (s + init) + [last];
      ValueAppend(s + init, last);
      Shuffle(Value(s), Pow10(|init|));
    }
  }

  lemma {:induction false} ValueBound(s: string)
    requires AllDigits(s)
    ensures Value(s) < Pow10(|s|)
  {
    if s != "" {
      ValueBound(s[..|s| - 1]);
    }
  }

  lemma {:induction false} ValueOfZeros(n: nat)
    ensures Value(Zeros(n)) == 0
  {
    if n > 0 {
      assert Zeros(n)[..n - 1] == Zeros(n - 1);
      ValueOfZeros(n - 1);
    }
  }

  /** The motes an amount text denotes: its value in billionths, rounded down. */
  ghost predicate Denotes(s: string, motes: nat)
    requires IsAmount(s)
  {
    var exact := (Value(Whole(s)) * Pow10(|Frac(s)|) + Value(Frac(s))) * MOTES_PER_CSPR;
    motes * Pow10(|Frac(s)|) <= exact < (motes + 1) * Pow10(|Frac(s)|)
  }

  /** Cutting or padding the fraction to nine digits rounds it down to billionths. */
  lemma NineDigits(f: string) returns (motes: nat)
    requires AllDigits(f)
    ensures motes == Value((f + Zeros(FRACTION_DIGITS))[..FRACTION_DIGITS])
    ensures motes * Pow10(|f|) <= Value(f) * MOTES_PER_CSPR < (motes + 1) * Pow10(|f|)
  {
    hide Value, Pow10;
    NinePlaces();
    if |f| <= FRACTION_DIGITS {
      var zeros := Zeros(FRACTION_DIGITS - |f|);
      assert (f + Zeros(FRACTION_DIGITS))[..FRACTION_DIGITS] == f + zeros;
      motes := PaddedFraction(f, zeros);
    } else {
      var kept, rest := f[..FRACTION_DIGITS], f[FRACTION_DIGITS..];
      assert f == kept + rest && (f + Zeros(FRACTION_DIGITS))[..FRACTION_DIGITS] == kept;
      motes := CutFraction(kept, rest);
    }
  }

  lemma PaddedFraction(f: string, zeros: string) returns (motes: nat)
    requires AllDigits(f) && |f| + |zeros| == FRACTION_DIGITS && zeros == Zeros(|zeros|)
    ensures motes == Value(f + zeros)
    ensures motes * Pow10(|f|) <= Value(f) * MOTES_PER_CSPR < (motes + 1) * Pow10(|f|)
  {
    hide Value, Pow10;
    NinePlaces();
    ValueConcat(f, zeros);
    ValueOfZeros(|zeros|);
    PowSum(|f|, |zeros|);
    motes := Value(f) * Pow10(|zeros|);
    Reorder(Value(f), Pow10(|zeros|), Pow10(|f|));
    Widen(motes, Pow10(|f|));
  }

  lemma CutFraction(kept: string, rest: string) returns (motes: nat)
    requires AllDigits(kept) && AllDigits(rest) && |kept| == FRACTION_DIGITS
    ensures motes == Value(kept)
    ensures motes * Pow10(|kept + rest|) <= Value(kept + rest) * MOTES_PER_CSPR < (motes + 1) * Pow10(|kept + rest|)
  {
    hide Value, Pow10;
    NinePlaces();
    ValueConcat(kept, rest);
    ValueBound(rest);
    PowSum(|rest|, FRACTION_DIGITS);
    motes := Value(kept);
    Scale(motes, Value(rest), Pow10(|rest|));
  }

  lemma Reorder(a: nat, b: nat, c: nat)
    ensures a * b * c == a * (c * b)
  {
  }

  lemma Widen(m: nat, p: nat)
    requires p >= 1
    ensures m * p < (m + 1) * p
  {
  }

  lemma Scale(m: nat, r: nat, p: nat)
    requires r < p
    ensures m * (p * MOTES_PER_CSPR) <= (m * p + r) * MOTES_PER_CSPR < (m + 1) * (p * MOTES_PER_CSPR)
  {
  }

  /** The parser accepts exactly the amounts, and returns what they denote. */
  lemma ParsesAmounts(s: string)
    ensures CsprToMotes(s).Ok? <==> IsAmount(s)
    ensures IsAmount(s) ==> exists motes: nat :: Denotes(s, motes) && CsprToMotes(s) == Ok(ToText(motes))
  {
    if IsAmount(s) {
      var frac := NineDigits(Frac(s));
      var motes := Value(Whole(s)) * MOTES_PER_CSPR + frac;
      Combine(Value(Whole(s)), frac, Value(Frac(s)), Pow10(|Frac(s)|));
      assert Denotes(s, motes);
    }
  }

  lemma Combine(w: nat, m: nat, f: nat, p: nat)
    requires m * p <= f * MOTES_PER_CSPR < (m + 1) * p
    ensures (w * MOTES_PER_CSPR + m) * p <= (w * p + f) * MOTES_PER_CSPR < (w * MOTES_PER_CSPR + m + 1) * p
  {
    Reorder(w, MOTES_PER_CSPR, p);
    assert (w * MOTES_PER_CSPR + m) * p == w * MOTES_PER_CSPR * p + m * p;
    assert (w * MOTES_PER_CSPR + m + 1) * p == w * MOTES_PER_CSPR * p + (m + 1) * p;
    assert (w * p + f) * MOTES_PER_CSPR == w * p * MOTES_PER_CSPR + f * MOTES_PER_CSPR;
  }

  // ---- There and back ------------------------------------------------------------------------------

  lemma {:induction false} ToTextLength(n: nat, k: nat)
    requires n < Pow10(k) && k >= 1
    ensures |ToText(n)| <= k
  {
    if n >= 10 {
      assert k >= 2 by {
        assert Pow10(1) == 10;
      }
      ToTextLength(n / 10, k - 1);
    }
  }

  lemma {:induction false} TrimmedZeros(s: string)
    requires AllDigits(s)
    ensures AllDigits(Trimmed(s)) && |Trimmed(s)| <= |s|
    ensures s == Trimmed(s) + Zeros(|s| - |Trimmed(s)|)
    ensures Value(s) > 0 ==> Trimmed(s) != ""
  {
    if s != "" && s[|s| - 1] == '0' {
      TrimmedZeros(s[..|s| - 1]);
      assert s == s[..|s| - 1] + "0";
    }
  }

  /** Leading zeros do not change a value. */
  lemma PaddedValue(frac: nat)
    requires frac < MOTES_PER_CSPR
    ensures var full := PadStart(ToText(frac), FRACTION_DIGITS);
      |full| == FRACTION_DIGITS && AllDigits(full) && Value(full) == frac
  {
    hide ToText, Value;
    NinePlaces();
    ToTextLength(frac, FRACTION_DIGITS);
    var lead := Zeros(FRACTION_DIGITS - |ToText(frac)|);
    ValueConcat(lead, ToText(frac));
    ValueOfZeros(|lead|);
    TextRoundTrip(frac);
    assert lead + ToText(frac) == PadStart(ToText(frac), FRACTION_DIGITS);
  }

  /** The nine fraction digits of the printer come back from their trimmed text. */
  lemma FractionComesBack(frac: nat)
    requires 0 < frac < MOTES_PER_CSPR
    ensures var t := Trimmed(PadStart(ToText(frac), FRACTION_DIGITS));
      t != "" && AllDigits(t) && |t| <= FRACTION_DIGITS && t[|t| - 1] != '0' &&
      Value((t + Zeros(FRACTION_DIGITS))[..FRACTION_DIGITS]) == frac
  {
    hide ToText, Value, PadStart, Trimmed;
    PaddedValue(frac);
    var full := PadStart(ToText(frac), FRACTION_DIGITS);
    TrimmedZeros(full);
    TrimmedEnds(full);
    assert (Trimmed(full) + Zeros(FRACTION_DIGITS))[..FRACTION_DIGITS] == full;
  }

  lemma {:induction false} TrimmedEnds(s: string)
    ensures Trimmed(s) != "" ==> Trimmed(s)[|Trimmed(s)| - 1] != '0'
  {
    if s != "" && s[|s| - 1] == '0' {
      TrimmedEnds(s[..|s| - 1]);
    }
  }

  lemma PointAfterDigits(s: string, t: string)
    requires AllDigits(s)
    ensures Point(s + "." + t) == |s|
    ensures Whole(s + "." + t) == s && Frac(s + "." + t) == t
    ensures Point(s) == |s| && Whole(s) == s && Frac(s) == ""
  {
    var u := s + "." + t;
    assert u[|s|] == '.' && forall i | 0 <= i < |s| :: u[i] == s[i] != '.';
  }

  /** What is left of a printed amount without its separators. */
  lemma UngroupUnsigned(v: nat)
    ensures var whole, frac := v / MOTES_PER_CSPR, v % MOTES_PER_CSPR;
      Ungroup(Unsigned(v)) ==
        if frac == 0 then ToText(whole)
        else ToText(whole) + "." + Trimmed(PadStart(ToText(frac), FRACTION_DIGITS))
  {
    var whole, frac := v / MOTES_PER_CSPR, v % MOTES_PER_CSPR;
    GroupIsWellGrouped(ToText(whole));
    if frac != 0 {
      var t := Trimmed(PadStart(ToText(frac), FRACTION_DIGITS));
      FractionComesBack(frac);
      UngroupConcat(Group(ToText(whole)) + ".", t);
      UngroupConcat(Group(ToText(whole)), ".");
      UngroupPlain(t);
      UngroupPlain(".");
    }
  }

  lemma ReadsParts(s: string, whole: nat, frac: nat)
    requires IsAmount(s) && Whole(s) == ToText(whole)
    requires Value((Frac(s) + Zeros(FRACTION_DIGITS))[..FRACTION_DIGITS]) == frac
    ensures CsprToMotes(s) == Ok(ToText(whole * MOTES_PER_CSPR + frac))
  {
    hide ToText;
    TextRoundTrip(whole);
  }

  lemma NonNegativeRoundTrip(v: nat)
    ensures CsprToMotes(Ungroup(FormatCspr(v, false))) == Ok(ToText(v))
  {
    hide Unsigned, Ungroup, PadStart, Trimmed, Point, Whole, Frac, ToText, Value, CsprToMotes;
    var whole, frac := v / MOTES_PER_CSPR, v % MOTES_PER_CSPR;
    var s := Ungroup(Unsigned(v));
    assert FormatCspr(v, false) == Unsigned(v);
    UngroupUnsigned(v);
    if frac == 0 {
      PointAfterDigits(ToText(whole), "");
      ValueOfZeros(FRACTION_DIGITS);
      assert ("" + Zeros(FRACTION_DIGITS))[..FRACTION_DIGITS] == Zeros(FRACTION_DIGITS);
    } else {
      FractionComesBack(frac);
      PointAfterDigits(ToText(whole), Trimmed(PadStart(ToText(frac), FRACTION_DIGITS)));
    }
    ReadsParts(s, whole, frac);
  }

  /** A comma, a sign or a suffix makes the parser refuse. */
  lemma OnlyDigitsAndPoint(s: string)
    requires IsAmount(s)
    ensures forall c | c in s :: IsDigit(c) || c == '.'
  {
    hide Point;
    var p := Point(s);
    forall i | 0 <= i < |s| ensures IsDigit(s[i]) || s[i] == '.' {
      assert i < p ==> Whole(s)[i] == s[i];
      assert i > p ==> Frac(s)[i - p - 1] == s[i];
    }
  }

  lemma {:induction false} GroupHasComma(s: string)
    requires AllDigits(s) && |s| > 3
    ensures ',' in Group(s)
  {
    GroupSplits(s);
    assert Group(s)[|Group(s)| - 4] == ',';
  }

  /** Grouping adds nothing to a number of at most three digits, that is, below a thousand. */
  lemma ShortNumbers(n: nat)
    ensures |ToText(n)| <= 3 <==> n < 1000
  {
    assert Pow10(3) == 1000;
    if n < 1000 {
      ToTextLength(n, 3);
    } else {
      TextRoundTrip(n);
      ValueBound(ToText(n));
      if |ToText(n)| <= 3 {
        PowMonotone(|ToText(n)|, 3);
      }
    }
  }

  lemma {:induction false} PowMonotone(j: nat, k: nat)
    requires j <= k
    ensures Pow10(j) <= Pow10(k)
  {
    if j < k {
      PowMonotone(j, k - 1);
    }
  }

  /** Printing, removing the separators and parsing gives back exactly the amounts that are not negative. */
  lemma RoundTrip(v: int)
    ensures CsprToMotes(Ungroup(FormatCspr(v, false))) == if v >= 0 then Ok(ToText(v)) else UsageError
  {
    hide Unsigned, Ungroup, ToText, CsprToMotes;
    if v >= 0 {
      NonNegativeRoundTrip(v);
    } else {
      var s := FormatCspr(v, false);
      UngroupConcat("-", Unsigned(-v));
      UngroupPlain("-");
      var u := Ungroup(s);
      assert u[0] == '-' && u[0] in u;
      ParsesAmounts(u);
      if IsAmount(u) {
        OnlyDigitsAndPoint(u);
      }
    }
  }

  /** Reads plain digits as their value. */
  ghost predicate ReadsDigits(read: BigIntReader) {
    forall s | s != "" && AllDigits(s) :: read(s) == Some(Value(s))
  }

  /** The texts the parser returns are printed and parsed back to themselves. */
  lemma TextRoundTrips(read: BigIntReader, s: string)
    requires ReadsDigits(read)
    ensures var motes := CsprToMotes(s);
      motes.Ok? ==> CsprToMotes(Ungroup(FormatText(read, motes.value, false))) == motes
  {
    hide CsprToMotes, Ungroup, FormatCspr, ToText, Value;
    ParsesAmounts(s);
    if IsAmount(s) {
      var motes: nat :| Denotes(s, motes) && CsprToMotes(s) == Ok(ToText(motes));
      PointAfterDigits(ToText(motes), "");
      TextRoundTrip(motes);
      RoundTrip(motes);
    }
  }

  // ---- Back and there ------------------------------------------------------------------------------

  /** No leading zeros, at most nine fraction digits, no trailing zeros. */
  predicate Canonical(s: string)
    requires IsAmount(s)
  {
    && NoLeadingZero(Whole(s))
    && |Frac(s)| <= FRACTION_DIGITS
    && (Frac(s) != "" ==> Frac(s)[|Frac(s)| - 1] != '0')
  }

  lemma {:induction false} SameValue(s: string, t: string)
    requires AllDigits(s) && AllDigits(t) && |s| == |t| && Value(s) == Value(t)
    ensures s == t
  {
    if s != "" {
      var i, j := s[..|s| - 1], t[..|t| - 1];
      assert Value(s) / 10 == Value(i) && Value(t) / 10 == Value(j);
      SameValue(i, j);
      assert DigitValue(s[|s| - 1]) == DigitValue(t[|t| - 1]);
      assert s == i + [s[|s| - 1]] && t == j + [t[|t| - 1]];
    }
  }

  lemma {:induction false} TrimmedBack(s: string, n: nat)
    requires s != "" ==> s[|s| - 1] != '0'
    ensures Trimmed(s + Zeros(n)) == s
    decreases n
  {
    if n == 0 {
      assert s + Zeros(n) == s;
    } else {
      TrimmedBack(s, n - 1);
      assert (s + Zeros(n))[..|s| + n - 1] == s + Zeros(n - 1);
    }
  }

  lemma {:induction false} ZeroValue(s: string)
    requires AllDigits(s) && Value(s) == 0
    ensures s == Zeros(|s|)
  {
    if s != "" {
      ZeroValue(s[..|s| - 1]);
      assert s == s[..|s| - 1] + [s[|s| - 1]];
    }
  }

  /** A canonical fraction is what the printer makes of its nine digits. */
  lemma FractionIsPrinted(f: string, frac: nat)
    requires AllDigits(f) && 0 < |f| <= FRACTION_DIGITS && f[|f| - 1] != '0'
    requires frac == Value((f + Zeros(FRACTION_DIGITS))[..FRACTION_DIGITS])
    ensures 0 < frac < MOTES_PER_CSPR && Trimmed(PadStart(ToText(frac), FRACTION_DIGITS)) == f
  {
    hide ToText, Value, Trimmed, PadStart;
    NinePlaces();
    var full := (f + Zeros(FRACTION_DIGITS))[..FRACTION_DIGITS];
    assert full == f + Zeros(FRACTION_DIGITS - |f|);
    assert full[|f| - 1] != '0';
    ValueBound(full);
    if frac == 0 {
      ZeroValue(full);
    }
    PaddedValue(frac);
    SameValue(full, PadStart(ToText(frac), FRACTION_DIGITS));
    TrimmedBack(f, FRACTION_DIGITS - |f|);
  }

  /** The text that the printer gives back for what was parsed is the one that was parsed, if it was canonical. */
  lemma PrintsWhatItParsed(s: string, motes: nat)
    requires CsprToMotes(s) == Ok(ToText(motes))
    ensures Ungroup(FormatCspr(motes, false)) == s <==> Canonical(s)
  {
    hide ToText, Value, Trimmed, PadStart, Unsigned, Ungroup, Point, Whole, Frac, Group;
    ParsesAmounts(s);
    Parts(s);
    TextRoundTrip(motes);
    UngroupUnsigned(motes);
    var padded := (Frac(s) + Zeros(FRACTION_DIGITS))[..FRACTION_DIGITS];
    TextRoundTrip(Value(Whole(s)) * MOTES_PER_CSPR + Value(padded));
    ValueBound(padded);
    NinePlaces();
    var whole, frac := motes / MOTES_PER_CSPR, motes % MOTES_PER_CSPR;
    assert whole == Value(Whole(s)) && frac == Value(padded);
    if Canonical(s) {
      ValueRoundTrip(Whole(s));
      if Frac(s) == "" {
        ValueOfZeros(FRACTION_DIGITS);
        assert padded == Zeros(FRACTION_DIGITS);
      } else {
        FractionIsPrinted(Frac(s), frac);
      }
    }
    if Ungroup(FormatCspr(motes, false)) == s {
      ToTextHasNoLeadingZero(whole);
      if frac == 0 {
        PointAfterDigits(ToText(whole), "");
      } else {
        FractionComesBack(frac);
        PointAfterDigits(ToText(whole), Trimmed(PadStart(ToText(frac), FRACTION_DIGITS)));
      }
    }
  }

  lemma Parts(s: string)
    requires IsAmount(s)
    ensures s == if Frac(s) == "" then Whole(s) else Whole(s) + "." + Frac(s)
    ensures AllDigits(Frac(s))
  {
  }

  /**
   * The parser takes a printed amount as it stands exactly when it was printed without suffix, is not
   * negative and is below a thousand CSPR; it then gives the amount back.
   */
  lemma ReadsOwnOutput(v: int, suffix: bool)
    ensures CsprToMotes(FormatCspr(v, suffix)).Ok? <==> !suffix && 0 <= v < 1000 * MOTES_PER_CSPR
    ensures CsprToMotes(FormatCspr(v, suffix)).Ok? ==> CsprToMotes(FormatCspr(v, suffix)) == Ok(ToText(v))
  {
    hide Unsigned, Group, ToText, Point, Whole, Frac, CsprToMotes;
    var s := FormatCspr(v, suffix);
    ParsesAmounts(s);
    if IsAmount(s) {
      OnlyDigitsAndPoint(s);
    }
    if v < 0 {
      assert s[0] == '-' && s[0] in s;
    } else if suffix {
      assert s[|s| - 1] == 'R' && s[|s| - 1] in s;
    } else {
      assert s == Unsigned(v);
      PlainIffShort(v);
      if v < 1000 * MOTES_PER_CSPR {
        UngroupPlain(s);
        NonNegativeRoundTrip(v);
      }
    }
  }

  /** A printed amount has a comma exactly from a thousand CSPR on. */
  lemma PlainIffShort(v: nat)
    ensures ',' in Unsigned(v) <==> v >= 1000 * MOTES_PER_CSPR
  {
    var whole, frac := v / MOTES_PER_CSPR, v % MOTES_PER_CSPR;
    ShortNumbers(whole);
    if whole < 1000 {
      GroupSplits(ToText(whole));
      if frac != 0 {
        FractionComesBack(frac);
      }
    } else {
      GroupHasComma(ToText(whole));
    }
  }

  /** Different amounts are printed differently. */
  lemma FormatIsInjective(v: int, w: int, suffix: bool)
    ensures FormatCspr(v, suffix) == FormatCspr(w, suffix) <==> v == w
  {
    hide Unsigned, Ungroup, CsprToMotes;
    if FormatCspr(v, suffix) == FormatCspr(w, suffix) {
      var a, b := if v < 0 then -v else v, if w < 0 then -w else w;
      if suffix {
        assert FormatCspr(v, suffix) == FormatCspr(v, false) + " CSPR";
        assert FormatCspr(w, suffix) == FormatCspr(w, false) + " CSPR";
        SuffixCancels(FormatCspr(v, false), FormatCspr(w, false));
      }
      assert FormatCspr(v, false) == FormatCspr(w, false);
      StartsWithDigit(a);
      StartsWithDigit(b);
      assert v < 0 <==> w < 0 by {
        assert v < 0 ==> FormatCspr(v, false)[0] == '-';
        assert w < 0 ==> FormatCspr(w, false)[0] == '-';
      }
      if v < 0 {
        assert ("-" + Unsigned(a))[1..] == Unsigned(a) && ("-" + Unsigned(b))[1..] == Unsigned(b);
      }
      assert Unsigned(a) == Unsigned(b);
      NonNegativeRoundTrip(a);
      NonNegativeRoundTrip(b);
      TextRoundTrip(a);
      TextRoundTrip(b);
    }
  }

  lemma SuffixCancels(s: string, t: string)
    requires s + " CSPR" == t + " CSPR"
    ensures s == t
  {
    assert s == (s + " CSPR")[..|s|] && t == (t + " CSPR")[..|t|];
  }

  lemma StartsWithDigit(v: nat)
    ensures Unsigned(v) != "" && IsDigit(Unsigned(v)[0])
  {
    var whole := ToText(v / MOTES_PER_CSPR);
    GroupIsWellGrouped(whole);
    FirstIsDigit(Group(whole));
  }

  lemma {:induction false} FirstIsDigit(t: string)
    requires WellGrouped(t)
    ensures IsDigit(t[0])
    decreases |t|
  {
    if |t| > 3 {
      FirstIsDigit(t[..|t| - 4]);
    }
  }
}
