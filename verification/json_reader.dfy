/**
 * A reader of JSON texts, written after RFC 8259 and without a thought for the printer, reads every canonical text back
 * as the value it was made from; and the order of keys is that of their UTF-16 code units.
 */
module JsonReader {
  import opened CanonicalJson
  import opened Wrappers

  datatype Read<+T> = Got(value: T, rest: string) | Nothing

  // ---- The reader ----------------------------------------------------------------------------------

  predicate Starts(s: string, word: string) {
    |word| <= |s| && s[..|word|] == word
  }

  function HexValue(c: char): Option<nat> {
    if '0' <= c <= '9' then Some((c - '0') as nat)
    else if 'a' <= c <= 'f' then Some((c - 'a') as nat + 10)
    else if 'A' <= c <= 'F' then Some((c - 'A') as nat + 10)
    else None
  }

  /** Four hexadecimal digits (section 7 of RFC 8259). Halves of surrogate pairs are not characters here. */
  function ReadHex(s: string): (r: Read<char>)
    ensures r.Got? ==> |r.rest| < |s|
  {
    if |s| < 4 then Nothing
    else
      var a, b, c, d := HexValue(s[0]), HexValue(s[1]), HexValue(s[2]), HexValue(s[3]);
      if a == None || b == None || c == None || d == None then Nothing
      else
        var n := 4096 * a.value + 256 * b.value + 16 * c.value + d.value;
        if 0xD800 <= n < 0xE000 || n >= 0x1_0000 then Nothing else Got(n as char, s[4..])
  }

  /** What follows a backslash. */
  function ReadEscape(s: string): (r: Read<char>)
    ensures r.Got? ==> |r.rest| < |s|
  {
    if s == "" then Nothing
    else if s[0] == '\"' || s[0] == '\\' || s[0] == '/' then Got(s[0], s[1..])
    else if s[0] == 'b' then Got(8 as char, s[1..])
    else if s[0] == 'f' then Got(12 as char, s[1..])
    else if s[0] == 'n' then Got(10 as char, s[1..])
    else if s[0] == 'r' then Got(13 as char, s[1..])
    else if s[0] == 't' then Got(9 as char, s[1..])
    else if s[0] == 'u' then ReadHex(s[1..])
    else Nothing
  }

  /** The characters of a string up to its closing quotation mark; control characters must be escaped. */
  function ReadChars(s: string): (r: Read<string>)
    ensures r.Got? ==> |r.rest| < |s|
    decreases |s|
  {
    if s == "" || s[0] < 32 as char then Nothing
    else if s[0] == '\"' then Got("", s[1..])
    else
      var c := if s[0] == '\\' then ReadEscape(s[1..]) else Got(s[0], s[1..]);
      if c == Nothing then Nothing
      else
        var more := ReadChars(c.rest);
        if more == Nothing then Nothing else Got([c.value] + more.value, more.rest)
  }

  function ReadNumber(s: string): (r: Read<Json>)
    ensures r.Got? ==> |r.rest| < |s|
  {
    var n := NumberSpan(s);
    SpanIsNumber(s);
    if n == 0 then Nothing else Got(Num(s[..n]), s[n..])
  }

  lemma {:induction false} SpanIsNumber(s: string)
    ensures NumberSpan(s) <= |s| && forall i | 0 <= i < NumberSpan(s) :: IsNumberChar(s[i])
  {
    if s != "" && IsNumberChar(s[0]) {
      SpanIsNumber(s[1..]);
      assert forall i | 0 < i < NumberSpan(s) :: s[i] == s[1..][i - 1];
    }
  }

  /** A value at the front of a text without blanks. */
  function ReadValue(s: string): (r: Read<Json>)
    ensures r.Got? ==> |r.rest| < |s|
    decreases |s|, 1
  {
    if Starts(s, "null") then Got(Null, s[4..])
    else if Starts(s, "true") then Got(Bool(true), s[4..])
    else if Starts(s, "false") then Got(Bool(false), s[5..])
    else if Starts(s, "\"") then
      var t := ReadChars(s[1..]);
      if t == Nothing then Nothing else Got(Str(t.value), t.rest)
    else if Starts(s, "[]") then Got(Arr([]), s[2..])
    else if Starts(s, "[") then
      var t := ReadElements(s[1..]);
      if t == Nothing then Nothing else Got(Arr(t.value), t.rest)
    else if Starts(s, "{}") then Got(Obj(map[]), s[2..])
    else if Starts(s, "{") then
      var t := ReadMembers(s[1..]);
      if t == Nothing then Nothing else Got(Obj(t.value), t.rest)
    else ReadNumber(s)
  }

  /** Values separated by commas, up to the closing bracket. */
  function ReadElements(s: string): (r: Read<seq<Json>>)
    ensures r.Got? ==> |r.rest| < |s|
    decreases |s|, 2
  {
    var v := ReadValue(s);
    if v == Nothing then Nothing
    else if Starts(v.rest, "]") then Got([v.value], v.rest[1..])
    else if Starts(v.rest, ",") then
      var more := ReadElements(v.rest[1..]);
      if more == Nothing then Nothing else Got([v.value] + more.value, more.rest)
    else Nothing
  }

  /** Members separated by commas, up to the closing brace; of two with one name the later counts. */
  function ReadMembers(s: string): (r: Read<map<string, Json>>)
    ensures r.Got? ==> |r.rest| < |s|
    decreases |s|, 2
  {
    if !Starts(s, "\"") then Nothing
    else
      var key := ReadChars(s[1..]);
      if key == Nothing || !Starts(key.rest, ":") then Nothing
      else
        var v := ReadValue(key.rest[1..]);
        if v == Nothing then Nothing
        else if Starts(v.rest, "}") then Got(map[key.value := v.value], v.rest[1..])
        else if Starts(v.rest, ",") then
          var more := ReadMembers(v.rest[1..]);
          if more == Nothing then Nothing else Got(map[key.value := v.value] + more.value, more.rest)
        else Nothing
  }

  // ---- Reading strings back ------------------------------------------------------------------------

  lemma EscapeIsRead(c: char, r: string)
    ensures var t := EscapeChar(c) + r;
      && t[0] >= 32 as char && t[0] != '\"'
      && (if t[0] == '\\' then ReadEscape(t[1..]) else Got(t[0], t[1..])) == Got(c, r)
  {
    var e := EscapeChar(c);
    var t := e + r;
    if e[0] == '\\' {
      assert t[1..] == e[1..] + r;
      if e[1] == 'u' {
        var u := t[2..];
        assert t[1..][1..] == u && u[4..] == r;
        assert u[0] == '0' && u[1] == '0' && u[2] == e[4] && u[3] == e[5];
      } else {
        assert t[1..][1..] == r;
      }
    } else {
      assert t[1..] == r;
    }
  }

  lemma {:induction false} CharsAreRead(s: string, r: string)
    ensures ReadChars(Escaped(s) + "\"" + r) == Got(s, r)
    decreases |s|
  {
    var t := Escaped(s) + "\"" + r;
    EscapedFront(s, r);
    if s == "" {
      assert t == "\"" + r && t[1..] == r;
    } else {
      EscapeIsRead(s[0], Escaped(s[1..]) + "\"" + r);
      CharsAreRead(s[1..], r);
      hide EscapeChar, ReadEscape, Escaped;
      assert s == [s[0]] + s[1..];
    }
  }

  lemma QuoteIsRead(s: string, r: string)
    ensures Starts(Quote(s) + r, "\"") && ReadChars((Quote(s) + r)[1..]) == Got(s, r)
  {
    CharsAreRead(s, r);
    assert (Quote(s) + r)[1..] == Escaped(s) + "\"" + r;
    hide Escaped, ReadChars;
  }

  // ---- Reading values back -------------------------------------------------------------------------

  lemma WordIsRead(word: string, r: string)
    ensures Starts(word + r, word) && (word + r)[|word|..] == r
  {
  }

  lemma NumberIsRead(t: NumberText, r: string)
    requires Follows(r)
    ensures ReadValue(t + r) == Got(Num(t), r)
  {
    NumberEnds(t, r);
    var s := t + r;
    assert s[0] == t[0] && IsNumberChar(s[0]);
    assert s[..|t|] == t && s[|t|..] == r;
    hide ReadChars, ReadElements, ReadMembers, NumberSpan;
    OnlyANumber(s);
    hide Starts;
  }

  lemma OnlyANumber(s: string)
    requires s != "" && IsNumberChar(s[0])
    ensures !Starts(s, "null") && !Starts(s, "true") && !Starts(s, "false") && !Starts(s, "\"")
    ensures !Starts(s, "[]") && !Starts(s, "[") && !Starts(s, "{}") && !Starts(s, "{")
  {
    assert forall word: string | word != "" && Starts(s, word) :: s[0] == word[0];
  }

  lemma WordsAreRead(r: string)
    ensures ReadValue("null" + r) == Got(Null, r)
    ensures ReadValue("true" + r) == Got(Bool(true), r)
    ensures ReadValue("false" + r) == Got(Bool(false), r)
  {
    hide ReadChars, ReadElements, ReadMembers, ReadNumber;
    WordIsRead("null", r);
    WordIsRead("true", r);
    WordIsRead("false", r);
    assert ("true" + r)[0] == 't' && ("false" + r)[0] == 'f';
  }

  lemma StringIsRead(s: string, chars: string, r: string)
    requires Starts(s, "\"") && ReadChars(s[1..]) == Got(chars, r)
    ensures ReadValue(s) == Got(Str(chars), r)
  {
    hide ReadChars, ReadElements, ReadMembers, ReadNumber;
    assert s[0] == '\"';
  }

  lemma ArrayIsRead(s: string, t: string, xs: seq<Json>, r: string)
    requires s == "[" + t && t != ""
    requires if xs == [] then t == "]" + r else t[0] != ']' && ReadElements(t) == Got(xs, r)
    ensures ReadValue(s) == Got(Arr(xs), r)
  {
    hide ReadChars, ReadElements, ReadMembers, ReadNumber;
    assert s[0] == '[' && s[1..] == t && s[1] == t[0];
    if xs == [] {
      assert s[2..] == t[1..] == r;
      assert Starts(s, "[]");
    }
  }

  lemma ObjectIsRead(s: string, t: string, m: map<string, Json>, r: string)
    requires s == "{" + t && t != ""
    requires if m == map[] then t == "}" + r else t[0] != '}' && ReadMembers(t) == Got(m, r)
    ensures ReadValue(s) == Got(Obj(m), r)
  {
    hide ReadChars, ReadElements, ReadMembers, ReadNumber;
    assert s[0] == '{' && s[1..] == t && s[1] == t[0];
    if m == map[] {
      assert s[2..] == t[1..] == r;
      assert Starts(s, "{}");
    }
  }

  /** Every canonical text, whatever closes or separates it from what follows, is read back as its value. */
  lemma {:induction false} TextIsRead(v: Json, r: string)
    requires Follows(r)
    ensures ReadValue(Stringify(v) + r) == Got(v, r)
    decreases v, 1, 0
  {
    hide ReadValue, ReadChars, ReadElements, ReadMembers, Quote, Elements, Members, SortedKeys, Follows, Starts;
    var s := Stringify(v) + r;
    match v
    case Null => WordsAreRead(r);
    case Bool(b) => WordsAreRead(r);
    case Num(t) => NumberIsRead(t, r);
    case Str(chars) =>
      QuoteIsRead(chars, r);
      StringIsRead(s, chars, r);
    case Arr(xs) =>
      var t := Elements(xs) + "]" + r;
      assert s == "[" + t;
      ElementsEnd(xs, r);
      if xs == [] {
        NoElementsText(r);
      } else {
        ElementsAreRead(xs, r);
      }
      ArrayIsRead(s, t, xs, r);
    case Obj(m) =>
      ObjectTextIsRead(v, r);
  }

  lemma {:induction false} ObjectTextIsRead(v: Json, r: string)
    requires v.Obj? && Follows(r)
    ensures ReadValue(Stringify(v) + r) == Got(v, r)
    decreases v, 0, 1 + |v.fields.Keys|
  {
    hide ReadValue, ReadChars, ReadElements, ReadMembers, Quote, Members, SortedKeys, Follows, Starts, Chosen;
    var m, keys := v.fields, SortedKeys(v.fields.Keys);
    var s, t := Stringify(v) + r, Members(v, keys) + "}" + r;
    SortedIsDistinct(keys, m.Keys);
    assert s == "{" + t;
    MembersEnd(v, keys, r);
    if keys == [] {
      NoMembersText(v, r);
      NoFields(m, keys);
    } else {
      MembersAreRead(v, keys, r);
      AllMembers(v, keys);
      assert keys[0] in keys;
    }
    ObjectIsRead(s, t, m, r);
  }

  lemma NoFields(m: map<string, Json>, keys: seq<string>)
    requires keys == [] && forall k :: k in keys <==> k in m.Keys
    ensures m == map[]
  {
    assert forall k :: k in m.Keys <==> k in keys;
  }

  lemma NoElementsText(r: string)
    ensures Elements([]) + "]" + r == "]" + r
  {
  }

  lemma NoMembersText(v: Json, r: string)
    requires v.Obj?
    ensures Members(v, []) + "}" + r == "}" + r
  {
  }

  lemma ElementIsRead(s: string, x: Json, rest: string, r: string)
    requires ReadValue(s) == Got(x, rest)
    ensures rest == "]" + r ==> ReadElements(s) == Got([x], r)
    ensures forall t, more: seq<Json> | rest == "," + t && ReadElements(t) == Got(more, r) ::
      ReadElements(s) == Got([x] + more, r)
  {
    hide ReadValue;
    if rest == "]" + r {
      WordIsRead("]", r);
    }
    forall t, more: seq<Json> | rest == "," + t && ReadElements(t) == Got(more, r)
      ensures ReadElements(s) == Got([x] + more, r)
    {
      WordIsRead(",", t);
      assert rest[0] == ',';
    }
  }

  lemma {:induction false} ElementsAreRead(xs: seq<Json>, r: string)
    requires xs != []
    ensures ReadElements(Elements(xs) + "]" + r) == Got(xs, r)
    decreases xs, 0, 0
  {
    hide Stringify, Elements, Follows, ReadValue, ReadElements;
    var rest := ElementsFront(xs, r);
    TextIsRead(xs[0], rest);
    ElementIsRead(Elements(xs) + "]" + r, xs[0], rest, r);
    if |xs| == 1 {
      assert xs == [xs[0]];
    } else {
      ElementsAreRead(xs[1..], r);
      assert xs == [xs[0]] + xs[1..];
    }
  }

  /** Some of the members of an object. */
  ghost function Chosen(v: Json, keys: seq<string>): map<string, Json>
    requires v.Obj? && forall k | k in keys :: k in v.fields
  {
    map k | k in keys :: v.fields[k]
  }

  lemma AllMembers(v: Json, keys: seq<string>)
    requires v.Obj? && forall k :: k in keys <==> k in v.fields
    ensures Chosen(v, keys) == v.fields
  {
  }

  lemma SortedIsDistinct(keys: seq<string>, s: set<string>)
    requires Sorts(keys, s)
    ensures NoRepeats(keys)
  {
    forall i, j | 0 <= i < j < |keys| ensures keys[i] != keys[j] {
      BeforeIsTotal(keys[i], keys[j]);
    }
  }

  lemma ChosenFront(v: Json, keys: seq<string>)
    requires v.Obj? && keys != [] && NoRepeats(keys) && forall k | k in keys :: k in v.fields
    ensures NoRepeats(keys[1..]) && forall k | k in keys[1..] :: k in v.fields
    ensures Chosen(v, keys) == map[keys[0] := v.fields[keys[0]]] + Chosen(v, keys[1..])
    ensures |keys| == 1 ==> Chosen(v, keys) == map[keys[0] := v.fields[keys[0]]]
  {
    assert keys == [keys[0]] + keys[1..];
    forall i, j | 0 <= i < j < |keys[1..]| ensures keys[1..][i] != keys[1..][j] {
      assert keys[i + 1] != keys[j + 1];
    }
    assert keys[0] !in keys[1..] by {
      forall j | 0 <= j < |keys[1..]| ensures keys[1..][j] != keys[0] {
        assert keys[0] != keys[j + 1];
      }
    }
  }

  lemma MemberIsRead(s: string, k: string, after: string, v: Json, rest: string, r: string)
    requires Starts(s, "\"") && ReadChars(s[1..]) == Got(k, ":" + after) && ReadValue(after) == Got(v, rest)
    ensures rest == "}" + r ==> ReadMembers(s) == Got(map[k := v], r)
    ensures forall t, more: map<string, Json> | rest == "," + t && ReadMembers(t) == Got(more, r) ::
      ReadMembers(s) == Got(map[k := v] + more, r)
  {
    hide ReadValue, ReadChars;
    WordIsRead(":", after);
    if rest == "}" + r {
      WordIsRead("}", r);
    }
    forall t, more: map<string, Json> | rest == "," + t && ReadMembers(t) == Got(more, r)
      ensures ReadMembers(s) == Got(map[k := v] + more, r)
    {
      WordIsRead(",", t);
      assert rest[0] == ',';
    }
  }

  lemma {:induction false} MembersAreRead(v: Json, keys: seq<string>, r: string)
    requires v.Obj? && keys != [] && NoRepeats(keys) && forall k | k in keys :: k in v.fields
    ensures ReadMembers(Members(v, keys) + "}" + r) == Got(Chosen(v, keys), r)
    decreases v, 0, |keys|
  {
    hide Stringify, Members, Quote, Follows, ReadValue, ReadChars, ReadMembers, Chosen, Starts;
    var rest := MembersFront(v, keys, r);
    var k := keys[0];
    var after := Stringify(v.fields[k]) + rest;
    QuoteIsRead(k, ":" + after);
    TextIsRead(v.fields[k], rest);
    ChosenFront(v, keys);
    MemberIsRead(Members(v, keys) + "}" + r, k, after, v.fields[k], rest, r);
    if |keys| > 1 {
      MembersAreRead(v, keys[1..], r);
    }
  }

  /** Reading a canonical text gives back the value, and nothing is left over. */
  lemma ReadsCanonicalText(v: Json)
    ensures ReadValue(Stringify(v)) == Got(v, "")
  {
    hide Stringify, ReadValue;
    TextIsRead(v, "");
    assert Stringify(v) + "" == Stringify(v);
  }

  // ---- What else the text fixes --------------------------------------------------------------------

  ghost predicate Plain(s: string) {
    forall i | 0 <= i < |s| :: s[i] >= 32 as char && s[i] != '\"' && s[i] != '\\'
  }

  /** A string without control characters, quotation marks and backslashes stands as it is between quotation marks. */
  lemma {:induction false} PlainText(s: string)
    requires Plain(s)
    ensures Stringify(Str(s)) == "\"" + s + "\""
  {
    PlainEscaped(s);
  }

  lemma {:induction false} PlainEscaped(s: string)
    requires Plain(s)
    ensures Escaped(s) == s
  {
    if s != "" {
      PlainEscaped(s[1..]);
      assert s == [s[0]] + s[1..];
    }
  }

  /** The code units of a text in UTF-16. */
  ghost function Utf16(s: string): seq<int> {
    if s == "" then [] else Units(s[0]) + Utf16(s[1..])
  }

  ghost function Units(c: char): seq<int> {
    var n := c as int;
    if n < 0x1_0000 then [n] else [0xD800 + (n - 0x1_0000) / 0x400, 0xDC00 + (n - 0x1_0000) % 0x400]
  }

  /** The order of lists of numbers by their first difference, a front before the longer list. */
  ghost predicate Precedes(a: seq<int>, b: seq<int>) {
    b != [] && (a == [] || a[0] < b[0] || (a[0] == b[0] && Precedes(a[1..], b[1..])))
  }

  lemma UnitsCompare(c: char, d: char, x: seq<int>, y: seq<int>)
    requires c != d
    ensures Precedes(Units(c) + x, Units(d) + y) <==> UnitRank(c) < UnitRank(d)
  {
    var a, b := Units(c) + x, Units(d) + y;
    assert a[0] == Units(c)[0] && b[0] == Units(d)[0];
    if a[0] == b[0] {
      assert c as int >= 0x1_0000 && d as int >= 0x1_0000;
      assert a[1..][0] == Units(c)[1] && b[1..][0] == Units(d)[1];
    }
  }

  lemma {:induction false} SameUnits(c: char, x: seq<int>, y: seq<int>)
    ensures Precedes(Units(c) + x, Units(c) + y) <==> Precedes(x, y)
  {
    var a, b := Units(c) + x, Units(c) + y;
    if c as int < 0x1_0000 {
      assert a[1..] == x && b[1..] == y;
    } else {
      assert a[1..][1..] == x && b[1..][1..] == y;
      assert a[1..][0] == b[1..][0];
    }
  }

  /** Keys are sorted by their UTF-16 code units. */
  lemma {:induction false} KeyOrder(a: string, b: string)
    ensures Before(a, b) <==> Precedes(Utf16(a), Utf16(b))
    decreases |a|
  {
    hide UnitRank, Units;
    if a != "" && b != "" {
      if a[0] == b[0] {
        KeyOrder(a[1..], b[1..]);
        SameUnits(a[0], Utf16(a[1..]), Utf16(b[1..]));
      } else {
        UnitsCompare(a[0], b[0], Utf16(a[1..]), Utf16(b[1..]));
      }
    } else {
      SomeUnits(a);
      SomeUnits(b);
    }
  }

  lemma SomeUnits(s: string)
    ensures Utf16(s) == [] <==> s == ""
  {
  }

  /** There is one sorted list of a set of keys. */
  lemma {:induction false} SortedOnce(keys: seq<string>, other: seq<string>, s: set<string>)
    requires Sorts(keys, s) && Sorts(other, s)
    ensures keys == other
    decreases |keys|
  {
    if keys != [] {
      FirstIsLeast(keys, s);
      FirstIsLeast(other, s);
      BeforeIsTotal(keys[0], other[0]);
      RestSorts(keys, s);
      RestSorts(other, s);
      SortedOnce(keys[1..], other[1..], s - {keys[0]});
      assert keys == [keys[0]] + keys[1..] && other == [other[0]] + other[1..];
    }
  }

  lemma FirstIsLeast(keys: seq<string>, s: set<string>)
    requires Sorts(keys, s) && keys != []
    ensures IsLeast(keys[0], s)
  {
    hide Before;
    forall k | k in s && k != keys[0] ensures Before(keys[0], k) {
      assert k in keys;
      var i :| 0 <= i < |keys| && keys[i] == k;
    }
  }

  lemma RestSorts(keys: seq<string>, s: set<string>)
    requires Sorts(keys, s) && keys != []
    ensures Sorts(keys[1..], s - {keys[0]})
  {
    hide Before;
    SortedIsDistinct(keys, s);
    var rest := keys[1..];
    assert keys == [keys[0]] + rest;
    forall k ensures k in rest <==> k in s && k != keys[0] {
      if k in rest {
        var i :| 0 <= i < |rest| && rest[i] == k;
        assert keys[0] != keys[i + 1];
        assert k in keys;
      }
    }
    forall i, j | 0 <= i < j < |rest| ensures Before(rest[i], rest[j]) {
      assert Before(keys[i + 1], keys[j + 1]);
    }
  }

  /** Members one after the other, each a quoted key, a colon and the text of its value. */
  ghost function Joined(m: map<string, Json>, keys: seq<string>): string
    requires forall k | k in keys :: k in m
  {
    if keys == [] then ""
    else
      var init := Joined(m, keys[..|keys| - 1]);
      var key := keys[|keys| - 1];
      (if |keys| == 1 then "" else init + ",") + Stringify(Str(key)) + ":" + Stringify(m[key])
  }

  lemma JoinedLast(m: map<string, Json>, init: seq<string>, key: string)
    requires init != [] && key in m && forall k | k in init :: k in m
    ensures Joined(m, init + [key]) == Joined(m, init) + "," + Stringify(Str(key)) + ":" + Stringify(m[key])
  {
    hide Stringify;
    assert (init + [key])[..|init|] == init;
    forall k | k in init + [key] ensures k in m {
    }
  }

  lemma Regroup(a: string, b: string, c: string, d: string)
    ensures a + "," + b + "," + c + ":" + d == a + "," + (b + "," + c + ":" + d)
  {
  }

  lemma {:induction false} JoinedFront(m: map<string, Json>, keys: seq<string>)
    requires |keys| > 1 && forall k | k in keys :: k in m
    ensures Joined(m, keys) == Stringify(Str(keys[0])) + ":" + Stringify(m[keys[0]]) + "," + Joined(m, keys[1..])
    decreases |keys|
  {
    hide Stringify;
    var n := |keys| - 1;
    var init, last := keys[..n], keys[n];
    assert keys == init + [last];
    JoinedLast(m, init, last);
    if n == 1 {
      assert init == [keys[0]] && keys[1..] == [last];
      assert [keys[0]][..0] == [] && [last][..0] == [];
    } else {
      JoinedFront(m, init);
      assert keys[1..] == init[1..] + [last];
      JoinedLast(m, init[1..], last);
      hide Joined;
      Regroup(Stringify(Str(keys[0])) + ":" + Stringify(m[keys[0]]), Joined(m, init[1..]), Stringify(Str(last)),
              Stringify(m[last]));
    }
  }

  lemma {:induction false} MembersAreJoined(v: Json, keys: seq<string>)
    requires v.Obj? && forall k | k in keys :: k in v.fields
    ensures Members(v, keys) == Joined(v.fields, keys)
    decreases |keys|
  {
    if |keys| == 1 {
      assert keys[..0] == [];
    } else if |keys| > 1 {
      MembersAreJoined(v, keys[1..]);
      JoinedFront(v.fields, keys);
    }
  }

  /** The text of an object: its members between braces, in the order of their keys. */
  lemma ObjectText(m: map<string, Json>, keys: seq<string>)
    requires Sorts(keys, m.Keys)
    ensures Stringify(Obj(m)) == "{" + Joined(m, keys) + "}"
  {
    SortedOnce(keys, SortedKeys(m.Keys), m.Keys);
    MembersAreJoined(Obj(m), keys);
    hide Members, Joined;
  }
}
