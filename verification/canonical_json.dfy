/**
 * The deterministic JSON text of lib/core/hash.ts: object keys sorted, strings escaped as
 * JSON.stringify escapes them. Everything that is hashed goes through it, so the question is whether
 * two different values can have one text.
 */
module CanonicalJson {

  /** The text of a finite number; numbers are told apart by their texts. */
  type NumberText = t: string | IsNumberText(t) witness "0"

  predicate IsNumberText(t: string) {
    t != "" && forall i | 0 <= i < |t| :: IsNumberChar(t[i])
  }

  predicate IsNumberChar(c: char) {
    '0' <= c <= '9' || c == '+' || c == '-' || c == '.' || c == 'e'
  }

  /** The values JSON can carry. The fields of an object have no order. */
  datatype Json =
    | Null
    | Bool(b: bool)
    | Num(text: NumberText)
    | Str(chars: string)
    | Arr(items: seq<Json>)
    | Obj(fields: map<string, Json>)

  // ---- Key order ---------------------------------------------------------------------------------

  /** Where a character stands when strings are compared by UTF-16 code units, as JavaScript sorts. */
  function UnitRank(c: char): int {
    var n := c as int;
    if n < 0xE000 then n else if n >= 0x1_0000 then 0xD800 + (n - 0x1_0000) else 0x10_0000 + n
  }

  predicate Before(a: string, b: string) {
    if b == "" then false
    else if a == "" then true
    else if a[0] == b[0] then Before(a[1..], b[1..])
    else UnitRank(a[0]) < UnitRank(b[0])
  }

  lemma {:induction false} BeforeIsTotal(a: string, b: string)
    ensures a == b || Before(a, b) || Before(b, a)
    ensures !(Before(a, b) && Before(b, a))
    ensures !Before(a, a)
    decreases |a|
  {
    if a != "" {
      BeforeIsTotal(a[1..], a[1..]);
      if b != "" && a[0] == b[0] {
        BeforeIsTotal(a[1..], b[1..]);
        assert a == [a[0]] + a[1..] && b == [b[0]] + b[1..];
      }
    }
  }

  lemma {:induction false} BeforeIsTransitive(a: string, b: string, c: string)
    requires Before(a, b) && Before(b, c)
    ensures Before(a, c)
    decreases |a|
  {
    if a != "" && a[0] == b[0] == c[0] {
      BeforeIsTransitive(a[1..], b[1..], c[1..]);
    }
  }

  predicate IsLeast(m: string, s: set<string>) {
    m in s && forall k | k in s && k != m :: Before(m, k)
  }

  lemma {:induction false} LeastExists(s: set<string>) returns (m: string)
    requires s != {}
    ensures IsLeast(m, s)
    decreases |s|
  {
    var k :| k in s;
    var rest := s - {k};
    if rest == {} {
      m := k;
      assert s == {k};
    } else {
      var least := LeastExists(rest);
      BeforeIsTotal(k, least);
      m := if Before(k, least) then k else least;
      forall j | j in s && j != m ensures Before(m, j) {
        assert j == k || j in rest;
        if m == k && j != least {
          BeforeIsTransitive(k, least, j);
        }
      }
    }
  }

  lemma LeastIsUnique(s: set<string>)
    requires s != {}
    ensures exists m :: m in s && IsLeast(m, s)
    ensures forall m, n | IsLeast(m, s) && IsLeast(n, s) :: m == n
  {
    var least := LeastExists(s);
    forall m, n | IsLeast(m, s) && IsLeast(n, s) ensures m == n {
      BeforeIsTotal(m, n);
    }
  }

  function Least(s: set<string>): (m: string)
    requires s != {}
    ensures IsLeast(m, s)
  {
    LeastIsUnique(s);
    var m :| m in s && IsLeast(m, s);
    m
  }

  /** The list holds the set, in order. */
  ghost predicate Sorts(keys: seq<string>, s: set<string>) {
    && (forall k :: k in keys <==> k in s)
    && |keys| == |s|
    && forall i, j | 0 <= i < j < |keys| :: Before(keys[i], keys[j])
  }

  lemma SortsWithLeast(m: string, rest: seq<string>, s: set<string>)
    requires IsLeast(m, s) && Sorts(rest, s - {m})
    ensures Sorts([m] + rest, s)
  {
    hide Before;
    var keys := [m] + rest;
    forall i, j | 0 <= i < j < |keys| ensures Before(keys[i], keys[j]) {
      assert keys[j] == rest[j - 1] && rest[j - 1] in rest;
      if i > 0 {
        assert keys[i] == rest[i - 1];
      }
    }
  }

  /** A set of keys in the order Object.keys(obj).sort() lists them. */
  function SortedKeys(s: set<string>): (keys: seq<string>)
    ensures Sorts(keys, s)
    decreases |s|
  {
    if s == {} then [] else
      var m := Least(s);
      var rest := SortedKeys(s - {m});
      SortsWithLeast(m, rest, s);
      [m] + rest
  }

  // ---- Strings -----------------------------------------------------------------------------------

  function HexDigit(n: nat): char
    requires n < 16
  {
    if n < 10 then '0' + n as char else 'a' + (n - 10) as char
  }

  /** One character inside a quoted string. */
  function EscapeChar(c: char): string {
    if c == '\"' then "\\\""
    else if c == '\\' then "\\\\"
    else if c == 8 as char then "\\b"
    else if c == 9 as char then "\\t"
    else if c == 10 as char then "\\n"
    else if c == 12 as char then "\\f"
    else if c == 13 as char then "\\r"
    else if c < 32 as char then "\\u00" + [HexDigit(c as int / 16), HexDigit(c as int % 16)]
    else [c]
  }

  function Escaped(s: string): string {
    if s == "" then "" else EscapeChar(s[0]) + Escaped(s[1..])
  }

  function Quote(s: string): string {
    "\"" + Escaped(s) + "\""
  }

  /** The escape of a character can be recognised at the front of any text. */
  lemma EscapeReadsBack(c: char, d: char, r: string, q: string)
    requires EscapeChar(c) + r == EscapeChar(d) + q
    ensures c == d && r == q
  {
    var x, y := EscapeChar(c), EscapeChar(d);
    var text := x + r;
    assert text[0] == x[0] == y[0];
    if x[0] == '\\' {
      assert text[1] == x[1] == y[1];
      if x[1] == 'u' {
        assert text[4] == x[4] == y[4] && text[5] == x[5] == y[5];
      }
    }
    assert c == d;
    assert text[|x|..] == r && text[|x|..] == q;
  }

  /** A quoted string ends exactly where a bare quotation mark stands. */
  lemma QuoteEnds(s: string, r: string)
    ensures (Escaped(s) + "\"" + r)[0] == '\"' <==> s == ""
  {
    if s != "" {
      assert (Escaped(s) + "\"" + r)[0] == EscapeChar(s[0])[0];
    }
  }

  lemma EscapedFront(s: string, r: string)
    ensures Escaped(s) + "\"" + r ==
      if s == "" then "\"" + r else EscapeChar(s[0]) + (Escaped(s[1..]) + "\"" + r)
  {
    hide EscapeChar;
  }

  lemma {:induction false} EscapedReadsBack(s: string, t: string, r: string, q: string)
    requires Escaped(s) + "\"" + r == Escaped(t) + "\"" + q
    ensures s == t && r == q
    decreases |s|
  {
    hide Escaped, EscapeChar;
    QuoteEnds(s, r);
    QuoteEnds(t, q);
    EscapedFront(s, r);
    EscapedFront(t, q);
    if s == "" {
      SplitsOnce("\"", "\"", r, q);
    } else {
      EscapeReadsBack(s[0], t[0], Escaped(s[1..]) + "\"" + r, Escaped(t[1..]) + "\"" + q);
      EscapedReadsBack(s[1..], t[1..], r, q);
      assert s == [s[0]] + s[1..] && t == [t[0]] + t[1..];
    }
  }

  lemma SplitsOnce(x: string, y: string, r: string, q: string)
    requires |x| == |y| && x + r == y + q
    ensures x == y && r == q
  {
    var text := x + r;
    assert text[..|x|] == x && text[..|x|] == y;
    assert text[|x|..] == r && text[|x|..] == q;
  }

  lemma QuoteReadsBack(s: string, t: string, r: string, q: string)
    requires Quote(s) + r == Quote(t) + q
    ensures s == t && r == q
  {
    hide Escaped;
    assert Quote(s) + r == "\"" + (Escaped(s) + "\"" + r);
    assert Quote(t) + q == "\"" + (Escaped(t) + "\"" + q);
    SplitsOnce("\"", "\"", Escaped(s) + "\"" + r, Escaped(t) + "\"" + q);
    EscapedReadsBack(s, t, r, q);
  }

  // ---- Numbers -----------------------------------------------------------------------------------

  /** What may stand after a value: the end, or a comma or a closing bracket. */
  predicate Follows(r: string) {
    r == "" || r[0] in {',', ']', '}'}
  }

  /** How many characters at the front of a text can belong to a number. */
  function NumberSpan(text: string): nat {
    if text == "" || !IsNumberChar(text[0]) then 0 else 1 + NumberSpan(text[1..])
  }

  lemma {:induction false} NumberEnds(a: string, r: string)
    requires (forall i | 0 <= i < |a| :: IsNumberChar(a[i])) && Follows(r)
    ensures NumberSpan(a + r) == |a|
    decreases |a|
  {
    if a == "" {
      assert a + r == r;
    } else {
      assert (a + r)[1..] == a[1..] + r;
      NumberEnds(a[1..], r);
    }
  }

  lemma NumberReadsBack(a: string, b: string, r: string, q: string)
    requires IsNumberText(a) && IsNumberText(b) && Follows(r) && Follows(q)
    requires a + r == b + q
    ensures a == b && r == q
  {
    NumberEnds(a, r);
    NumberEnds(b, q);
    SplitsOnce(a, b, r, q);
  }

  // ---- Values ------------------------------------------------------------------------------------

  function Stringify(v: Json): string
    decreases v, 1, 0
  {
    match v
    case Null => "null"
    case Bool(b) => if b then "true" else "false"
    case Num(t) => t
    case Str(s) => Quote(s)
    case Arr(xs) => "[" + Elements(xs) + "]"
    case Obj(m) => "{" + Members(v, SortedKeys(m.Keys)) + "}"
  }

  /** Array elements joined by commas. */
  function Elements(xs: seq<Json>): string
    decreases xs, 0, 0
  {
    if |xs| == 0 then ""
    else if |xs| == 1 then Stringify(xs[0])
    else Stringify(xs[0]) + "," + Elements(xs[1..])
  }

  function Member(v: Json, key: string): string
    requires v.Obj? && key in v.fields
    decreases v, 0, 0
  {
    Quote(key) + ":" + Stringify(v.fields[key])
  }

  /** The members with the given keys, joined by commas. */
  function Members(v: Json, keys: seq<string>): string
    requires v.Obj? && forall k | k in keys :: k in v.fields
    decreases v, 0, 1 + |keys|
  {
    if |keys| == 0 then ""
    else if |keys| == 1 then Member(v, keys[0])
    else Member(v, keys[0]) + "," + Members(v, keys[1..])
  }

  // ---- Unique reading ----------------------------------------------------------------------------

  /** What the first character of a value's text tells about the value. */
  predicate Opens(c: char, v: Json) {
    match v
    case Null => c == 'n'
    case Bool(b) => c == (if b then 't' else 'f')
    case Num(_) => IsNumberChar(c)
    case Str(_) => c == '\"'
    case Arr(_) => c == '['
    case Obj(_) => c == '{'
  }

  lemma FirstChar(v: Json, r: string)
    ensures Stringify(v) != "" && Opens((Stringify(v) + r)[0], v)
  {
    hide Escaped, Elements, Members, SortedKeys;
  }

  /**
   * One text, one value: when two values are followed by texts that cannot extend them and the whole
   * reads the same, the values and the rests are the same.
   */
  lemma {:induction false} ReadsBack(v: Json, w: Json, r: string, q: string)
    requires Follows(r) && Follows(q) && Stringify(v) + r == Stringify(w) + q
    ensures v == w && r == q
    decreases v, 1, 0
  {
    hide Quote, Elements, Members, SortedKeys, Follows;
    FirstChar(v, r);
    FirstChar(w, q);
    match v
    case Null => SplitsOnce("null", "null", r, q);
    case Bool(b) => SplitsOnce(Stringify(v), Stringify(w), r, q);
    case Num(t) => NumberReadsBack(t, w.text, r, q);
    case Str(s) => QuoteReadsBack(s, w.chars, r, q);
    case Arr(xs) =>
      Unwrap("[", Elements(xs), "]", r, Elements(w.items), q);
      ElementsReadBack(xs, w.items, r, q);
    case Obj(m) =>
      var ks, ls := SortedKeys(m.Keys), SortedKeys(w.fields.Keys);
      Unwrap("{", Members(v, ks), "}", r, Members(w, ls), q);
      MembersReadBack(v, w, ks, ls, r, q);
      SameFields(m, w.fields, ks);
  }

  lemma Unwrap(open: string, x: string, close: string, r: string, y: string, q: string)
    requires open + x + close + r == open + y + close + q
    ensures x + close + r == y + close + q
  {
    assert open + x + close + r == open + (x + close + r);
    assert open + y + close + q == open + (y + close + q);
    SplitsOnce(open, open, x + close + r, y + close + q);
  }

  lemma SameFields(m: map<string, Json>, n: map<string, Json>, keys: seq<string>)
    requires forall k :: k in keys <==> k in m
    requires forall k :: k in keys <==> k in n
    requires forall k | k in keys :: m[k] == n[k]
    ensures m == n
  {
    assert m.Keys == n.Keys;
  }

  /** The text from the first element on: the element, then a comma or the closing bracket. */
  lemma ElementsFront(xs: seq<Json>, r: string) returns (rest: string)
    requires xs != []
    ensures Elements(xs) + "]" + r == Stringify(xs[0]) + rest
    ensures rest == (if |xs| == 1 then "]" + r else "," + (Elements(xs[1..]) + "]" + r))
    ensures Follows(rest) && rest != "" && rest[0] == (if |xs| == 1 then ']' else ',')
  {
    hide Stringify;
    rest := if |xs| == 1 then "]" + r else "," + (Elements(xs[1..]) + "]" + r);
  }

  lemma {:induction false} ElementsReadBack(xs: seq<Json>, ys: seq<Json>, r: string, q: string)
    requires Elements(xs) + "]" + r == Elements(ys) + "]" + q
    ensures xs == ys && r == q
    decreases xs, 0, 0
  {
    hide Stringify, Elements, Follows;
    ElementsEnd(xs, r);
    ElementsEnd(ys, q);
    if xs == [] {
      NoElements(r, q);
    } else {
      var x := ElementsFront(xs, r);
      var y := ElementsFront(ys, q);
      ReadsBack(xs[0], ys[0], x, y);
      if |xs| == 1 {
        SplitsOnce("]", "]", r, q);
      } else {
        SplitsOnce(",", ",", Elements(xs[1..]) + "]" + r, Elements(ys[1..]) + "]" + q);
        ElementsReadBack(xs[1..], ys[1..], r, q);
      }
      assert xs == [xs[0]] + xs[1..] && ys == [ys[0]] + ys[1..];
    }
  }

  lemma NoElements(r: string, q: string)
    requires Elements([]) + "]" + r == Elements([]) + "]" + q
    ensures r == q
  {
    assert Elements([]) + "]" + r == "]" + r && Elements([]) + "]" + q == "]" + q;
    SplitsOnce("]", "]", r, q);
  }

  lemma ElementsEnd(xs: seq<Json>, r: string)
    ensures (Elements(xs) + "]" + r)[0] == ']' <==> xs == []
  {
    if xs != [] {
      var rest := ElementsFront(xs, r);
      FirstChar(xs[0], rest);
    }
  }

  lemma MembersFront(v: Json, keys: seq<string>, r: string) returns (rest: string)
    requires v.Obj? && keys != [] && forall k | k in keys :: k in v.fields
    ensures Members(v, keys) + "}" + r == Quote(keys[0]) + (":" + (Stringify(v.fields[keys[0]]) + rest))
    ensures rest == (if |keys| == 1 then "}" + r else "," + (Members(v, keys[1..]) + "}" + r))
    ensures Follows(rest) && rest != "" && rest[0] == (if |keys| == 1 then '}' else ',')
  {
    hide Stringify, Quote;
    rest := if |keys| == 1 then "}" + r else "," + (Members(v, keys[1..]) + "}" + r);
    assert Members(v, keys) + "}" + r == Member(v, keys[0]) + rest;
  }

  lemma MembersEnd(v: Json, keys: seq<string>, r: string)
    requires v.Obj? && forall k | k in keys :: k in v.fields
    ensures (Members(v, keys) + "}" + r)[0] == '}' <==> keys == []
  {
    hide Stringify;
    if keys != [] {
      var rest := MembersFront(v, keys, r);
      assert Quote(keys[0])[0] == '\"';
    }
  }

  lemma NoMembers(v: Json, w: Json, r: string, q: string)
    requires v.Obj? && w.Obj? && Members(v, []) + "}" + r == Members(w, []) + "}" + q
    ensures r == q
  {
    assert Members(v, []) + "}" + r == "}" + r && Members(w, []) + "}" + q == "}" + q;
    SplitsOnce("}", "}", r, q);
  }

  /** The texts of two objects start with the same key, and its value and what follows read the same. */
  lemma FirstMember(v: Json, w: Json, ks: seq<string>, ls: seq<string>, r: string, q: string)
    returns (x: string, y: string)
    requires v.Obj? && w.Obj? && ks != [] && ls != []
    requires (forall k | k in ks :: k in v.fields) && (forall k | k in ls :: k in w.fields)
    requires Members(v, ks) + "}" + r == Members(w, ls) + "}" + q
    ensures ks[0] == ls[0]
    ensures Stringify(v.fields[ks[0]]) + x == Stringify(w.fields[ls[0]]) + y
    ensures Follows(x) && Follows(y) && x != "" && y != ""
    ensures x == (if |ks| == 1 then "}" + r else "," + (Members(v, ks[1..]) + "}" + r))
    ensures y == (if |ls| == 1 then "}" + q else "," + (Members(w, ls[1..]) + "}" + q))
    ensures x[0] == (if |ks| == 1 then '}' else ',') && y[0] == (if |ls| == 1 then '}' else ',')
  {
    hide Stringify, Members, Quote, Follows;
    x := MembersFront(v, ks, r);
    y := MembersFront(w, ls, q);
    var k, l := ks[0], ls[0];
    QuoteReadsBack(k, l, ":" + (Stringify(v.fields[k]) + x), ":" + (Stringify(w.fields[l]) + y));
    SplitsOnce(":", ":", Stringify(v.fields[k]) + x, Stringify(w.fields[l]) + y);
  }

  lemma {:induction false} MembersReadBack(v: Json, w: Json, ks: seq<string>, ls: seq<string>, r: string, q: string)
    requires v.Obj? && w.Obj?
    requires (forall k | k in ks :: k in v.fields) && (forall k | k in ls :: k in w.fields)
    requires Members(v, ks) + "}" + r == Members(w, ls) + "}" + q
    ensures ks == ls && r == q
    ensures forall k | k in ks :: k in w.fields && v.fields[k] == w.fields[k]
    decreases v, 0, |ks|
  {
    hide Stringify, Members, Quote, Follows;
    MembersEnd(v, ks, r);
    MembersEnd(w, ls, q);
    if ks == [] {
      NoMembers(v, w, r, q);
    } else {
      var x, y := FirstMember(v, w, ks, ls, r, q);
      var k, l := ks[0], ls[0];
      ReadsBack(v.fields[k], w.fields[l], x, y);
      if |ks| == 1 {
        SplitsOnce("}", "}", r, q);
      } else {
        SplitsOnce(",", ",", Members(v, ks[1..]) + "}" + r, Members(w, ls[1..]) + "}" + q);
        MembersReadBack(v, w, ks[1..], ls[1..], r, q);
      }
      assert ks == [k] + ks[1..] && ls == [l] + ls[1..];
    }
  }

  /** Two values have one text exactly when they are one value; no value has the empty text. */
  lemma StringifyIsInjective(v: Json, w: Json)
    ensures Stringify(v) == Stringify(w) <==> v == w
    ensures Stringify(v) != ""
  {
    hide Stringify;
    FirstChar(v, "");
    if Stringify(v) == Stringify(w) {
      assert Stringify(v) + "" == Stringify(w) + "";
      ReadsBack(v, w, "", "");
    }
  }
}
