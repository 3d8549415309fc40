/**
 * What the validator's error list means: empty exactly for values that conform to the schema, and otherwise
 * one entry for each check that fails, at the place where it fails.
 */
module ValidatorMeaning {
  import opened Validator
  import opened Wrappers

  // ---- Kinds, constants, lengths and lookup, in their own terms ------------------------------------

  /** A number that is an integer. */
  ghost predicate IsInteger(x: real) {
    exists n: int :: AsReal(n) == x
  }

  function AsReal(n: int): real {
    n as real
  }

  /** The values of a kind; no value is of any other kind. */
  ghost predicate OfKind(v: Value, kind: string) {
    || (kind == "null" && v.Null?)
    || (kind == "boolean" && v.Bool?)
    || (kind == "integer" && v.Num? && IsInteger(v.number))
    || (kind == "number" && v.Num? && !IsInteger(v.number))
    || (kind == "string" && v.Str?)
    || (kind == "array" && v.Arr?)
    || (kind == "object" && v.Obj?)
    || (kind == "undefined" && v.Undefined?)
    || (kind == "function" && v.Func?)
  }

  lemma KindIs(v: Value, kind: string)
    ensures JsonType(v) == kind <==> OfKind(v, kind)
  {
    if v.Num? {
      assert AsReal(v.number.Floor) == v.number.Floor as real;
      if IsInteger(v.number) {
        var n: int :| AsReal(n) == v.number;
        assert v.number.Floor == n;
      }
    }
  }

  /** A primitive value equals the constant; compound constants are equal to nothing. */
  ghost predicate IsConstant(v: Value, c: Value) {
    v == c && (c.Undefined? || c.Null? || c.Bool? || c.Num? || c.Str?)
  }

  /** Characters outside the basic plane take two code units. */
  ghost function CodeUnits(s: string): nat {
    |s| + |set i | 0 <= i < |s| && s[i] as int >= 0x1_0000|
  }

  lemma {:induction false} UnitsAre(s: string)
    ensures Units(s) == CodeUnits(s)
  {
    if s != "" {
      var n := |s| - 1;
      var init := s[..n];
      UnitsAre(init);
      var wide := set i | 0 <= i < n && init[i] as int >= 0x1_0000;
      var all := set i | 0 <= i < |s| && s[i] as int >= 0x1_0000;
      forall i ensures i in all <==> i in wide || (i == n && s[n] as int >= 0x1_0000) {
        assert 0 <= i < n ==> init[i] == s[i];
      }
      assert all == wide + if s[n] as int >= 0x1_0000 then {n} else {};
    }
  }

  /** The value under a name: that of its last own entry, or else the inherited one. */
  ghost predicate Finds(host: Host, entries: seq<Entry>, name: string, v: Value) {
    || (exists i :: LastEntry(entries, name, i) && entries[i].value == v)
    || ((forall i | 0 <= i < |entries| :: entries[i].name != name) &&
        name in host.inherited && host.inherited[name] == v)
  }

  ghost predicate LastEntry(entries: seq<Entry>, name: string, i: int) {
    0 <= i < |entries| && entries[i].name == name && forall j | i < j < |entries| :: entries[j].name != name
  }

  lemma {:induction false} OwnIsLast(entries: seq<Entry>, name: string)
    ensures forall v :: Own(entries, name) == Some(v) <==>
      exists i :: LastEntry(entries, name, i) && entries[i].value == v
    ensures Own(entries, name) == None <==> forall i | 0 <= i < |entries| :: entries[i].name != name
  {
    if entries != [] {
      var n := |entries| - 1;
      var init := entries[..n];
      OwnIsLast(init, name);
      if entries[n].name == name {
        assert LastEntry(entries, name, n);
      } else {
        forall i ensures LastEntry(entries, name, i) <==> LastEntry(init, name, i) {
          assert forall j | 0 <= j < n :: init[j] == entries[j];
        }
      }
    }
  }

  lemma LookupFinds(host: Host, entries: seq<Entry>, name: string)
    ensures forall v :: Lookup(host, entries, name) == Some(v) <==> Finds(host, entries, name, v)
  {
    OwnIsLast(entries, name);
    hide Own, LastEntry;
  }

  ghost predicate Declared(s: Schema, name: string) {
    exists i :: 0 <= i < |s.properties| && s.properties[i].key == name
  }

  ghost predicate Owns(entries: seq<Entry>, name: string) {
    exists i :: 0 <= i < |entries| && entries[i].name == name
  }

  lemma NamesAre(s: Schema, entries: seq<Entry>, name: string)
    ensures name in PropertyNames(s) <==> Declared(s, name)
    ensures name in OwnNames(entries) <==> Owns(entries, name)
  {
    if i :| 0 <= i < |entries| && entries[i].name == name {
      assert OwnNames(entries)[i] == name;
    }
  }

  // ---- Conformance, without error lists ------------------------------------------------------------

  ghost predicate FitsHere(host: Host, s: Schema, v: Value) {
    && (s.constant.Some? ==> IsConstant(v, s.constant.value))
    && (s.kind != "" ==> OfKind(v, s.kind))
    && (v.Str? ==>
          && (s.pattern != "" ==> host.matches(s.pattern, v.text))
          && (s.minLength.Some? ==> CodeUnits(v.text) as real >= s.minLength.value))
    && (v.Num? ==>
          && (s.minimum.Some? ==> v.number >= s.minimum.value)
          && (s.maximum.Some? ==> v.number <= s.maximum.value))
  }

  /** A value conforms to a schema. */
  ghost predicate Conforms(host: Host, s: Schema, v: Value)
    decreases s
  {
    && FitsHere(host, s, v)
    && (s.kind == "object" && v.Obj? ==>
          && (forall k | k in s.required :: Lookup(host, v.entries, k).Some?)
          && (forall i | 0 <= i < |s.properties| :: Suits(host, s, i, v.entries))
          && (s.closed ==> forall k | k in OwnNames(v.entries) :: k in PropertyNames(s)))
  }

  /** The value found under a declared property, if there is one, conforms to its schema. */
  ghost predicate Suits(host: Host, s: Schema, i: nat, entries: seq<Entry>)
    requires i < |s.properties|
    decreases s, 0
  {
    var found := Lookup(host, entries, s.properties[i].key);
    found.Some? ==> Conforms(host, s.properties[i].schema, found.value)
  }

  // ---- The parts of the error list -----------------------------------------------------------------

  lemma {:induction false} InRequiredErrors(host: Host, names: seq<string>, entries: seq<Entry>, path: string,
                                            x: Violation)
    ensures x in RequiredErrors(host, names, entries, path) <==>
      exists k | k in names :: Lookup(host, entries, k) == None && x == Violation(Under(path, k), Required)
  {
    hide Lookup, Under;
    if names != [] {
      var init, last := names[..|names| - 1], names[|names| - 1];
      InRequiredErrors(host, init, entries, path, x);
      assert names == init + [last];
    }
  }

  lemma {:induction false} InAdditionalErrors(allowed: set<string>, names: seq<string>, path: string, x: Violation)
    ensures x in AdditionalErrors(allowed, names, path) <==>
      exists k | k in names :: k !in allowed && x == Violation(Under(path, k), Additional)
  {
    hide Under;
    if names != [] {
      var init, last := names[..|names| - 1], names[|names| - 1];
      InAdditionalErrors(allowed, init, path, x);
      assert names == init + [last];
    }
  }

  lemma {:induction false} InConcat(lists: seq<seq<Violation>>, x: Violation)
    ensures x in Concat(lists) <==> exists i | 0 <= i < |lists| :: x in lists[i]
  {
    if lists != [] {
      var init := lists[..|lists| - 1];
      InConcat(init, x);
      assert forall i | 0 <= i < |init| :: init[i] == lists[i];
    }
  }

  // ---- Accepted means conforming -------------------------------------------------------------------

  lemma NothingInConcat(lists: seq<seq<Violation>>)
    ensures Concat(lists) == [] <==> forall i | 0 <= i < |lists| :: lists[i] == []
  {
    hide Concat;
    if Concat(lists) != [] {
      InConcat(lists, Concat(lists)[0]);
    }
    forall i | 0 <= i < |lists| && lists[i] != [] ensures Concat(lists) != [] {
      InConcat(lists, lists[i][0]);
    }
  }

  lemma NoRequiredErrors(host: Host, names: seq<string>, entries: seq<Entry>, path: string)
    ensures RequiredErrors(host, names, entries, path) == [] <==>
      forall k | k in names :: Lookup(host, entries, k).Some?
  {
    hide Lookup, Under, RequiredErrors;
    var list := RequiredErrors(host, names, entries, path);
    if list != [] {
      InRequiredErrors(host, names, entries, path, list[0]);
    }
    forall k | k in names && Lookup(host, entries, k) == None ensures list != [] {
      InRequiredErrors(host, names, entries, path, Violation(Under(path, k), Required));
    }
  }

  lemma NoAdditionalErrors(allowed: set<string>, names: seq<string>, path: string)
    ensures AdditionalErrors(allowed, names, path) == [] <==> forall k | k in names :: k in allowed
  {
    hide Under, AdditionalErrors;
    var list := AdditionalErrors(allowed, names, path);
    if list != [] {
      InAdditionalErrors(allowed, names, path, list[0]);
    }
    forall k | k in names && k !in allowed ensures list != [] {
      InAdditionalErrors(allowed, names, path, Violation(Under(path, k), Additional));
    }
  }

  lemma NoLocalErrors(host: Host, s: Schema, v: Value, path: string)
    ensures LocalErrors(host, s, v, path) == [] <==> FitsHere(host, s, v)
  {
    KindIs(v, s.kind);
    if v.Str? {
      UnitsAre(v.text);
    }
    hide JsonType, OfKind, Units, CodeUnits;
  }

  /** The validator accepts exactly the values that conform to the schema, whatever path it starts from. */
  lemma {:induction false} Accepts(host: Host, s: Schema, v: Value, path: string)
    ensures Errors(host, s, v, path) == [] <==> Conforms(host, s, v)
    decreases s, 1
  {
    hide LocalErrors, FitsHere, Lookup, OwnNames, PropertyNames, Under;
    NoLocalErrors(host, s, v, path);
    if Opened(s, v) {
      NoRequiredErrors(host, s.required, v.entries, path);
      NoAdditionalErrors(PropertyNames(s), OwnNames(v.entries), path);
      var lists := ChildLists(host, s, |s.properties|, v.entries, path);
      NothingInConcat(lists);
      forall i | 0 <= i < |s.properties| ensures lists[i] == [] <==> Suits(host, s, i, v.entries) {
        assert lists[i] == ChildErrors(host, s, i, v.entries, path);
        var p := s.properties[i];
        var found := Lookup(host, v.entries, p.key);
        if found.Some? {
          Accepts(host, p.schema, found.value, Under(path, p.key));
        }
      }
    }
  }

  // ---- Every failing check, where it fails ---------------------------------------------------------

  /** This check fails at the value itself. */
  ghost predicate FailsHere(host: Host, s: Schema, v: Value, problem: Problem) {
    match problem
    case NotConst(c) => s.constant == Some(c) && !IsConstant(v, c)
    case WrongType(expected, actual) => s.kind == expected != "" && OfKind(v, actual) && actual != expected
    case NoMatch(pattern) => v.Str? && s.pattern == pattern != "" && !host.matches(pattern, v.text)
    case TooShort(limit) => v.Str? && s.minLength == Some(limit) && CodeUnits(v.text) as real < limit
    case BelowMinimum(limit) => v.Num? && s.minimum == Some(limit) && v.number < limit
    case AboveMaximum(limit) => v.Num? && s.maximum == Some(limit) && v.number > limit
    case Required => false
    case Additional => false
  }

  /** This check about the entry of that name fails in an object. */
  ghost predicate FailsFor(host: Host, s: Schema, entries: seq<Entry>, name: string, problem: Problem) {
    || (problem == Required && name in s.required && Lookup(host, entries, name) == None)
    || (problem == Additional && s.closed && name in OwnNames(entries) && name !in PropertyNames(s))
  }

  /** This check fails at the value that the keys lead to, following declared properties. */
  ghost predicate FailsAt(host: Host, s: Schema, v: Value, keys: seq<string>, problem: Problem)
    decreases s, 1
  {
    if keys == [] then
      FailsHere(host, s, v, problem)
    else
      && s.kind == "object" && v.Obj?
      && (|| (|keys| == 1 && FailsFor(host, s, v.entries, keys[0], problem))
          || exists i | 0 <= i < |s.properties| :: FailsBelow(host, s, i, v.entries, keys, problem))
  }

  ghost predicate FailsBelow(host: Host, s: Schema, i: nat, entries: seq<Entry>, keys: seq<string>, problem: Problem)
    requires i < |s.properties| && keys != []
    decreases s, 0
  {
    var found := Lookup(host, entries, keys[0]);
    s.properties[i].key == keys[0] && found.Some? &&
    FailsAt(host, s.properties[i].schema, found.value, keys[1..], problem)
  }

  function PathTo(path: string, keys: seq<string>): string
    decreases |keys|
  {
    if keys == [] then path else PathTo(Under(path, keys[0]), keys[1..])
  }

  /** Each key after a dot. */
  ghost function Dotted(keys: seq<string>): string {
    if keys == [] then "" else Dotted(keys[..|keys| - 1]) + "." + keys[|keys| - 1]
  }

  lemma {:induction false} DottedFront(key: string, keys: seq<string>)
    ensures Dotted([key] + keys) == "." + key + Dotted(keys)
  {
    if keys == [] {
      assert [key] + keys == [key] && [key][..0] == [] && Dotted([]) == "";
    } else {
      DottedFront(key, keys[..|keys| - 1]);
      assert ([key] + keys)[..|keys|] == [key] + keys[..|keys| - 1];
    }
  }

  /** The reported path of a value is the path of the whole, followed by each key after a dot. */
  lemma {:induction false} PathIs(path: string, keys: seq<string>)
    ensures PathTo(path, keys) == path + Dotted(keys)
    decreases |keys|
  {
    if keys != [] {
      PathIs(Under(path, keys[0]), keys[1..]);
      DottedFront(keys[0], keys[1..]);
      assert keys == [keys[0]] + keys[1..];
    }
  }

  lemma InLocalErrors(host: Host, s: Schema, v: Value, path: string, x: Violation)
    ensures x in LocalErrors(host, s, v, path) <==> x.path == path && FailsHere(host, s, v, x.problem)
  {
    InConstantErrors(host, s, v, path, x);
    InKindErrors(host, s, v, path, x);
    InStringErrors(host, s, v, path, x);
    InNumberErrors(host, s, v, path, x);
    hide StringErrors, NumberErrors, ConstantErrors, KindErrors;
    LocalParts(host, s, v, path);
    hide LocalErrors;
  }

  ghost function ConstantErrors(s: Schema, v: Value, path: string): seq<Violation> {
    if s.constant.Some? then Complaint(!Identical(v, s.constant.value), path, NotConst(s.constant.value)) else []
  }

  ghost function KindErrors(s: Schema, v: Value, path: string): seq<Violation> {
    Complaint(s.kind != "" && JsonType(v) != s.kind, path, WrongType(s.kind, JsonType(v)))
  }

  lemma LocalParts(host: Host, s: Schema, v: Value, path: string)
    ensures LocalErrors(host, s, v, path) ==
      ConstantErrors(s, v, path) + KindErrors(s, v, path) + StringErrors(host, s, v, path) + NumberErrors(s, v, path)
  {
  }

  lemma InConstantErrors(host: Host, s: Schema, v: Value, path: string, x: Violation)
    ensures x in ConstantErrors(s, v, path) <==>
      x.path == path && x.problem.NotConst? && FailsHere(host, s, v, x.problem)
  {
  }

  lemma InKindErrors(host: Host, s: Schema, v: Value, path: string, x: Violation)
    ensures x in KindErrors(s, v, path) <==>
      x.path == path && x.problem.WrongType? && FailsHere(host, s, v, x.problem)
  {
    forall kind ensures JsonType(v) == kind <==> OfKind(v, kind) {
      KindIs(v, kind);
    }
    hide JsonType, OfKind;
  }

  lemma InStringErrors(host: Host, s: Schema, v: Value, path: string, x: Violation)
    ensures x in StringErrors(host, s, v, path) <==>
      x.path == path && (x.problem.NoMatch? || x.problem.TooShort?) && FailsHere(host, s, v, x.problem)
  {
    if v.Str? {
      UnitsAre(v.text);
    }
    hide Units, CodeUnits;
  }

  lemma InNumberErrors(host: Host, s: Schema, v: Value, path: string, x: Violation)
    ensures x in NumberErrors(s, v, path) <==>
      x.path == path && (x.problem.BelowMinimum? || x.problem.AboveMaximum?) && FailsHere(host, s, v, x.problem)
  {
    if v.Num? {
      var low := if s.minimum.Some?
        then Complaint(v.number < s.minimum.value, path, BelowMinimum(s.minimum.value)) else [];
      var high := if s.maximum.Some?
        then Complaint(v.number > s.maximum.value, path, AboveMaximum(s.maximum.value)) else [];
      assert NumberErrors(s, v, path) == low + high;
      assert x in low <==> x.path == path && x.problem.BelowMinimum? && FailsHere(host, s, v, x.problem);
      assert x in high <==> x.path == path && x.problem.AboveMaximum? && FailsHere(host, s, v, x.problem);
    }
  }

  /** The violation's path is that of the keys, and its check fails where they lead. */
  ghost predicate FailsOn(host: Host, s: Schema, v: Value, path: string, keys: seq<string>, x: Violation) {
    path + Dotted(keys) == x.path && FailsAt(host, s, v, keys, x.problem)
  }

  /** Every reported error is a check that fails, at the path that leads to it. */
  lemma {:induction false} ReportedFails(host: Host, s: Schema, v: Value, path: string, x: Violation)
    returns (keys: seq<string>)
    requires x in Errors(host, s, v, path)
    ensures PathTo(path, keys) == x.path && FailsAt(host, s, v, keys, x.problem)
    decreases s
  {
    hide LocalErrors, FailsHere, Lookup, OwnNames, PropertyNames, Under;
    InLocalErrors(host, s, v, path, x);
    keys := [];
    if x !in LocalErrors(host, s, v, path) {
      InRequiredErrors(host, s.required, v.entries, path, x);
      InAdditionalErrors(PropertyNames(s), OwnNames(v.entries), path, x);
      InConcat(ChildLists(host, s, |s.properties|, v.entries, path), x);
      if x in RequiredErrors(host, s.required, v.entries, path) {
        var k :| k in s.required && Lookup(host, v.entries, k) == None && x == Violation(Under(path, k), Required);
        keys := [k];
        assert PathTo(path, keys) == Under(path, k);
        assert FailsFor(host, s, v.entries, k, Required);
      } else if x in Concat(ChildLists(host, s, |s.properties|, v.entries, path)) {
        var lists := ChildLists(host, s, |s.properties|, v.entries, path);
        var i :| 0 <= i < |lists| && x in lists[i];
        assert x in ChildErrors(host, s, i, v.entries, path);
        var p := s.properties[i];
        var below := ReportedFails(host, p.schema, Lookup(host, v.entries, p.key).value, Under(path, p.key), x);
        keys := [p.key] + below;
        assert keys[1..] == below && PathTo(path, keys) == PathTo(Under(path, p.key), below);
        assert FailsBelow(host, s, i, v.entries, keys, x.problem);
      } else {
        var k :| k in OwnNames(v.entries) && k !in PropertyNames(s) && x == Violation(Under(path, k), Additional);
        keys := [k];
        assert PathTo(path, keys) == Under(path, k);
        assert FailsFor(host, s, v.entries, k, Additional);
      }
    }
  }

  /** Every check that fails is reported, with the path that leads to it. */
  lemma {:induction false} FailingIsReported(host: Host, s: Schema, v: Value, path: string, keys: seq<string>,
                                             problem: Problem)
    requires FailsAt(host, s, v, keys, problem)
    ensures Violation(PathTo(path, keys), problem) in Errors(host, s, v, path)
    decreases s
  {
    hide LocalErrors, FailsHere, Lookup, OwnNames, PropertyNames, Under;
    var x := Violation(PathTo(path, keys), problem);
    if keys == [] {
      InLocalErrors(host, s, v, path, x);
    } else if |keys| == 1 && FailsFor(host, s, v.entries, keys[0], problem) {
      assert PathTo(path, keys) == Under(path, keys[0]);
      InRequiredErrors(host, s.required, v.entries, path, x);
      InAdditionalErrors(PropertyNames(s), OwnNames(v.entries), path, x);
    } else {
      var i :| 0 <= i < |s.properties| && FailsBelow(host, s, i, v.entries, keys, problem);
      var p := s.properties[i];
      FailingIsReported(host, p.schema, Lookup(host, v.entries, p.key).value, Under(path, p.key), keys[1..], problem);
      assert x in ChildLists(host, s, |s.properties|, v.entries, path)[i];
      InConcat(ChildLists(host, s, |s.properties|, v.entries, path), x);
    }
  }

  /** The error list names a problem at a path exactly when some keys of that path lead to a failing check. */
  lemma Diagnosis(host: Host, s: Schema, v: Value, path: string, x: Violation)
    ensures x in Errors(host, s, v, path) <==> exists keys :: FailsOn(host, s, v, path, keys, x)
  {
    if x in Errors(host, s, v, path) {
      var keys := ReportedFails(host, s, v, path, x);
      PathIs(path, keys);
      assert FailsOn(host, s, v, path, keys, x);
    }
    if keys :| FailsOn(host, s, v, path, keys, x) {
      PathIs(path, keys);
      FailingIsReported(host, s, v, path, keys, x.problem);
    }
  }

  // ---- What a kind alone demands -------------------------------------------------------------------

  function KindOnly(kind: string): Schema {
    Schema(kind, [], false, [], None, "", None, None, None)
  }

  /**
   * Under a schema with a kind and nothing else the validator accepts exactly the values of that kind, integers being
   * the whole numbers and numbers the others; any other value has one error, which names the value's own kind.
   */
  lemma KindDecides(host: Host, kind: string, v: Value, path: string)
    requires kind != ""
    ensures Errors(host, KindOnly(kind), v, path) == [] <==> OfKind(v, kind)
    ensures !OfKind(v, kind) ==> exists actual ::
      OfKind(v, actual) && Errors(host, KindOnly(kind), v, path) == [Violation(path, WrongType(kind, actual))]
  {
    var s := KindOnly(kind);
    KindIs(v, kind);
    KindIs(v, JsonType(v));
    hide OfKind, JsonType;
    assert LocalErrors(host, s, v, path) ==
      Complaint(JsonType(v) != kind, path, WrongType(kind, JsonType(v))) + StringErrors(host, s, v, path) +
      NumberErrors(s, v, path);
    assert StringErrors(host, s, v, path) == [] && NumberErrors(s, v, path) == [];
    if Opened(s, v) {
      assert Errors(host, s, v, path) == LocalErrors(host, s, v, path) by {
        assert ChildLists(host, s, 0, v.entries, path) == [];
      }
    }
  }

  // ---- The order of the errors ---------------------------------------------------------------------

  ghost function Rank(p: Problem): nat {
    match p
    case NotConst(_) => 0
    case WrongType(_, _) => 1
    case NoMatch(_) => 2
    case TooShort(_) => 3
    case BelowMinimum(_) => 4
    case AboveMaximum(_) => 5
    case Required => 6
    case Additional => 7
  }

  ghost predicate Ranked(errors: seq<Violation>) {
    forall i, j | 0 <= i < j < |errors| :: Rank(errors[i].problem) < Rank(errors[j].problem)
  }

  /** At the value itself every check complains at most once: constant, kind, pattern, length, minimum, maximum. */
  lemma LocalOrder(host: Host, s: Schema, v: Value, path: string)
    ensures Ranked(LocalErrors(host, s, v, path))
    ensures forall x :: x in LocalErrors(host, s, v, path) <==> x.path == path && FailsHere(host, s, v, x.problem)
  {
    hide LocalErrors, FailsHere, Ranked;
    forall x ensures x in LocalErrors(host, s, v, path) <==> x.path == path && FailsHere(host, s, v, x.problem) {
      InLocalErrors(host, s, v, path, x);
    }
    LocalRanked(host, s, v, path);
  }

  lemma LocalRanked(host: Host, s: Schema, v: Value, path: string)
    ensures Ranked(LocalErrors(host, s, v, path))
  {
    var first, second := ConstantErrors(s, v, path), KindErrors(s, v, path);
    LocalParts(host, s, v, path);
    FirstRanked(s, v, path);
    StringsRanked(host, s, v, path);
    NumbersRanked(s, v, path);
    hide LocalErrors, StringErrors, NumberErrors, ConstantErrors, KindErrors, Ranked, RanksFrom;
    RankedAppend(first, second, 1, 2);
    RankedAppend(first + second, StringErrors(host, s, v, path), 2, 4);
    RankedAppend(first + second + StringErrors(host, s, v, path), NumberErrors(s, v, path), 4, 6);
  }

  lemma FirstRanked(s: Schema, v: Value, path: string)
    ensures Ranked(ConstantErrors(s, v, path)) && RanksFrom(ConstantErrors(s, v, path), 0, 1)
    ensures Ranked(KindErrors(s, v, path)) && RanksFrom(KindErrors(s, v, path), 1, 2)
  {
    hide Identical, JsonType;
  }

  ghost predicate RanksFrom(errors: seq<Violation>, lo: nat, hi: nat) {
    forall i | 0 <= i < |errors| :: lo <= Rank(errors[i].problem) < hi
  }

  lemma RankedAppend(a: seq<Violation>, b: seq<Violation>, mid: nat, hi: nat)
    requires Ranked(a) && Ranked(b) && RanksFrom(a, 0, mid) && RanksFrom(b, mid, hi) && mid <= hi
    ensures Ranked(a + b) && RanksFrom(a + b, 0, hi)
  {
  }

  lemma StringsRanked(host: Host, s: Schema, v: Value, path: string)
    ensures Ranked(StringErrors(host, s, v, path)) && RanksFrom(StringErrors(host, s, v, path), 2, 4)
  {
    hide Units;
  }

  lemma NumbersRanked(s: Schema, v: Value, path: string)
    ensures Ranked(NumberErrors(s, v, path)) && RanksFrom(NumberErrors(s, v, path), 4, 6)
  {
  }

  ghost predicate Increasing(at: seq<nat>) {
    forall i, j | 0 <= i < j < |at| :: at[i] < at[j]
  }

  /** The errors are those of the places that fail, in the order of the places. */
  ghost predicate InOrderOf(errors: seq<Violation>, names: seq<string>, fails: set<string>, path: string,
                            problem: Problem, at: seq<nat>) {
    && Increasing(at) && |at| == |errors|
    && (forall i | 0 <= i < |at| ::
          at[i] < |names| && names[at[i]] in fails && errors[i] == Violation(path + "." + names[at[i]], problem))
    && forall k: nat | k < |names| && names[k] in fails :: k in at
  }

  lemma OneMoreName(errors: seq<Violation>, names: seq<string>, fails: set<string>, path: string, problem: Problem,
                    at: seq<nat>, name: string)
    requires InOrderOf(errors, names, fails, path, problem, at)
    ensures name !in fails ==> InOrderOf(errors, names + [name], fails, path, problem, at)
    ensures name in fails ==>
      InOrderOf(errors + [Violation(path + "." + name, problem)], names + [name], fails, path, problem, at + [|names|])
  {
    var more := at + [|names|];
    assert forall i | 0 <= i < |at| :: more[i] == at[i];
    forall k: nat | k <= |names| && (names + [name])[k] in fails ensures k in (if name in fails then more else at) {
      if k < |names| {
        assert names[k] in fails && k in at;
        var i :| 0 <= i < |at| && at[i] == k;
        assert more[i] == k;
      } else {
        assert more[|at|] == k;
      }
    }
  }

  /** Missing names are reported in the order in which the schema requires them. */
  lemma {:induction false} RequiredOrder(host: Host, names: seq<string>, entries: seq<Entry>, path: string,
                                         missing: set<string>) returns (at: seq<nat>)
    requires forall k | k in names :: k in missing <==> forall v :: !Finds(host, entries, k, v)
    ensures InOrderOf(RequiredErrors(host, names, entries, path), names, missing, path, Required, at)
  {
    hide Finds, Lookup, InOrderOf;
    at := [];
    if names == [] {
      NoNames(missing, path, Required);
    } else {
      var init, name := names[..|names| - 1], names[|names| - 1];
      assert names == init + [name];
      at := RequiredOrder(host, init, entries, path, missing);
      OneMoreName(RequiredErrors(host, init, entries, path), init, missing, path, Required, at, name);
      LookupFinds(host, entries, name);
      var found := Lookup(host, entries, name);
      assert found.Some? ==> Finds(host, entries, name, found.value);
      assert RequiredErrors(host, names, entries, path) == RequiredErrors(host, init, entries, path) +
        if name in missing then [Violation(path + "." + name, Required)] else [];
      assert RequiredErrors(host, init, entries, path) + [] == RequiredErrors(host, init, entries, path);
      if name in missing {
        at := at + [|init|];
      }
    }
  }

  lemma NoNames(fails: set<string>, path: string, problem: Problem)
    ensures InOrderOf([], [], fails, path, problem, [])
  {
  }

  /** Undeclared names are reported in the order in which the value has them. */
  lemma {:induction false} AdditionalOrder(s: Schema, names: seq<string>, path: string, undeclared: set<string>)
    returns (at: seq<nat>)
    requires forall k | k in names :: k in undeclared <==> !Declared(s, k)
    ensures InOrderOf(AdditionalErrors(PropertyNames(s), names, path), names, undeclared, path, Additional, at)
  {
    hide Declared, PropertyNames, InOrderOf;
    at := [];
    if names == [] {
      NoNames(undeclared, path, Additional);
    } else {
      var init, name := names[..|names| - 1], names[|names| - 1];
      assert names == init + [name];
      at := AdditionalOrder(s, init, path, undeclared);
      OneMoreName(AdditionalErrors(PropertyNames(s), init, path), init, undeclared, path, Additional, at, name);
      NamesAre(s, [], name);
      assert AdditionalErrors(PropertyNames(s), names, path) == AdditionalErrors(PropertyNames(s), init, path) +
        if name in undeclared then [Violation(path + "." + name, Additional)] else [];
      assert AdditionalErrors(PropertyNames(s), init, path) + [] == AdditionalErrors(PropertyNames(s), init, path);
      if name in undeclared {
        at := at + [|init|];
      }
    }
  }

  /** The errors below a declared property are those of the value found there. */
  ghost predicate ErrorsBelow(host: Host, s: Schema, i: nat, entries: seq<Entry>, path: string, errors: seq<Violation>)
    requires i < |s.properties|
  {
    var p := s.properties[i];
    && (forall found | Finds(host, entries, p.key, found) ::
          errors == Errors(host, p.schema, found, path + "." + p.key))
    && ((forall found :: !Finds(host, entries, p.key, found)) ==> errors == [])
  }

  lemma ChildIsBelow(host: Host, s: Schema, i: nat, entries: seq<Entry>, path: string)
    requires i < |s.properties|
    ensures ErrorsBelow(host, s, i, entries, path, ChildErrors(host, s, i, entries, path))
  {
    LookupFinds(host, entries, s.properties[i].key);
    hide Finds, Lookup, Errors;
    var found := Lookup(host, entries, s.properties[i].key);
    assert found.Some? ==> Finds(host, entries, s.properties[i].key, found.value);
  }

  /**
   * The errors of an object come in this order: its own, one for each missing name, those below each declared property
   * that is found, one property after the other, and one for each undeclared name.
   */
  lemma SectionsInOrder(host: Host, s: Schema, v: Value, path: string) returns (below: seq<seq<Violation>>)
    requires s.kind == "object" && v.Obj?
    ensures |below| == |s.properties|
    ensures forall i | 0 <= i < |below| :: ErrorsBelow(host, s, i, v.entries, path, below[i])
    ensures Errors(host, s, v, path) ==
      LocalErrors(host, s, v, path) + RequiredErrors(host, s.required, v.entries, path) + Flat(below) +
      if s.closed then AdditionalErrors(PropertyNames(s), OwnNames(v.entries), path) else []
  {
    hide ErrorsBelow, LocalErrors, RequiredErrors, AdditionalErrors, Concat, Flat, PropertyNames, OwnNames;
    below := ChildLists(host, s, |s.properties|, v.entries, path);
    FlatIs(below);
    forall i | 0 <= i < |below| ensures ErrorsBelow(host, s, i, v.entries, path, below[i]) {
      ChildIsBelow(host, s, i, v.entries, path);
    }
    ErrorsAre(host, s, v, path);
  }

  lemma ErrorsAre(host: Host, s: Schema, v: Value, path: string)
    requires Opened(s, v)
    ensures Errors(host, s, v, path) ==
      LocalErrors(host, s, v, path) + RequiredErrors(host, s.required, v.entries, path) +
      Concat(ChildLists(host, s, |s.properties|, v.entries, path)) +
      if s.closed then AdditionalErrors(PropertyNames(s), OwnNames(v.entries), path) else []
  {
    hide LocalErrors, RequiredErrors, AdditionalErrors, Concat, ChildLists, PropertyNames, OwnNames;
  }

  /** The lists one after the other. */
  ghost function Flat(lists: seq<seq<Violation>>): seq<Violation> {
    if lists == [] then [] else lists[0] + Flat(lists[1..])
  }

  lemma {:induction false} FlatAppends(lists: seq<seq<Violation>>, last: seq<Violation>)
    ensures Flat(lists + [last]) == Flat(lists) + last
  {
    if lists == [] {
      assert lists + [last] == [last] && [last][1..] == [];
      assert last + [] == last;
    } else {
      FlatAppends(lists[1..], last);
      assert (lists + [last])[1..] == lists[1..] + [last];
    }
  }

  lemma {:induction false} FlatIs(lists: seq<seq<Violation>>)
    ensures Concat(lists) == Flat(lists)
  {
    if lists != [] {
      FlatIs(lists[..|lists| - 1]);
      FlatAppends(lists[..|lists| - 1], lists[|lists| - 1]);
      assert lists == lists[..|lists| - 1] + [lists[|lists| - 1]];
    }
  }

  // ---- Inherited members ---------------------------------------------------------------------------

  /** The schema asks for this name somewhere. */
  ghost predicate AsksFor(s: Schema, name: string)
    decreases s, 1
  {
    name in s.required || exists i | 0 <= i < |s.properties| :: AsksBelow(s, i, name)
  }

  ghost predicate AsksBelow(s: Schema, i: nat, name: string)
    requires i < |s.properties|
    decreases s, 0
  {
    s.properties[i].key == name || AsksFor(s.properties[i].schema, name)
  }

  function WithoutPrototype(host: Host): Host {
    host.(inherited := map[])
  }

  /** Inherited members can influence the verdict only through names that the schema itself asks for. */
  lemma {:induction false} OwnEntriesDecide(host: Host, s: Schema, v: Value)
    requires forall name | name in host.inherited :: !AsksFor(s, name)
    ensures Conforms(host, s, v) <==> Conforms(WithoutPrototype(host), s, v)
    decreases s
  {
    if Opened(s, v) {
      forall i | 0 <= i < |s.properties|
        ensures Suits(host, s, i, v.entries) <==> Suits(WithoutPrototype(host), s, i, v.entries)
      {
        var p := s.properties[i];
        assert forall name | name in host.inherited :: !AsksBelow(s, i, name);
        var found := Lookup(host, v.entries, p.key);
        if found.Some? {
          OwnEntriesDecide(host, p.schema, found.value);
        }
      }
    }
  }

  /** At every object reached through own entries, every required name is an own entry. */
  ghost predicate RequiredOwn(s: Schema, v: Value)
    decreases s, 1
  {
    Opened(s, v) ==>
      && (forall k | k in s.required :: Own(v.entries, k).Some?)
      && (forall i | 0 <= i < |s.properties| :: RequiredOwnBelow(s, i, v.entries))
  }

  ghost predicate RequiredOwnBelow(s: Schema, i: nat, entries: seq<Entry>)
    requires i < |s.properties|
    decreases s, 0
  {
    var found := Own(entries, s.properties[i].key);
    found.Some? ==> RequiredOwn(s.properties[i].schema, found.value)
  }

  /** At every object reached through own entries, an inherited value standing in for a declared property conforms. */
  ghost predicate InheritedFits(host: Host, s: Schema, v: Value)
    decreases s, 1
  {
    Opened(s, v) ==> forall i | 0 <= i < |s.properties| :: InheritedFitsBelow(host, s, i, v.entries)
  }

  ghost predicate InheritedFitsBelow(host: Host, s: Schema, i: nat, entries: seq<Entry>)
    requires i < |s.properties|
    decreases s, 0
  {
    var p := s.properties[i];
    var found := Own(entries, p.key);
    if found.Some? then InheritedFits(host, p.schema, found.value)
    else p.key in host.inherited ==> Conforms(host, p.schema, host.inherited[p.key])
  }

  /**
   * An accepted value also conforms without inherited members exactly when it has every required name as an
   * own entry, wherever own entries lead.
   */
  lemma {:induction false} AcceptedRightly(host: Host, s: Schema, v: Value)
    requires Conforms(host, s, v)
    ensures Conforms(WithoutPrototype(host), s, v) <==> RequiredOwn(s, v)
    decreases s
  {
    hide JsonType, Own, Identical, Units;
    if Opened(s, v) {
      forall i | 0 <= i < |s.properties|
        ensures Suits(WithoutPrototype(host), s, i, v.entries) <==> RequiredOwnBelow(s, i, v.entries)
      {
        assert Suits(host, s, i, v.entries);
        var p := s.properties[i];
        var found := Own(v.entries, p.key);
        if found.Some? {
          AcceptedRightly(host, p.schema, found.value);
        }
      }
    }
  }

  /**
   * A value that conforms without inherited members is also accepted exactly when the inherited values that
   * stand in for its missing properties conform.
   */
  lemma {:induction false} RejectedRightly(host: Host, s: Schema, v: Value)
    requires Conforms(WithoutPrototype(host), s, v)
    ensures Conforms(host, s, v) <==> InheritedFits(host, s, v)
    decreases s
  {
    hide JsonType, Own, Identical, Units;
    if Opened(s, v) {
      forall i | 0 <= i < |s.properties|
        ensures Suits(host, s, i, v.entries) <==> InheritedFitsBelow(host, s, i, v.entries)
      {
        assert Suits(WithoutPrototype(host), s, i, v.entries);
        var p := s.properties[i];
        var found := Own(v.entries, p.key);
        if found.Some? {
          RejectedRightly(host, p.schema, found.value);
        }
      }
      forall k | k in s.required ensures Lookup(host, v.entries, k).Some? {
        assert Lookup(WithoutPrototype(host), v.entries, k).Some?;
      }
    }
  }

  /**
   * The validator's verdict is the one that own entries alone deserve exactly when it accepts no value that
   * lacks an own required name and rejects none for an inherited value.
   */
  lemma VerdictIsOwn(host: Host, s: Schema, v: Value, path: string)
    ensures (Errors(host, s, v, path) == [] <==> Conforms(WithoutPrototype(host), s, v)) <==>
      && (Conforms(host, s, v) ==> RequiredOwn(s, v))
      && (Conforms(WithoutPrototype(host), s, v) ==> InheritedFits(host, s, v))
  {
    Accepts(host, s, v, path);
    hide Conforms, Errors, RequiredOwn, InheritedFits;
    if Conforms(host, s, v) {
      AcceptedRightly(host, s, v);
    }
    if Conforms(WithoutPrototype(host), s, v) {
      RejectedRightly(host, s, v);
    }
  }

  /** A required name that every object inherits counts as present in the empty object. */
  lemma InheritedNameCounts(host: Host, s: Schema, name: string)
    requires name in host.inherited
    requires s == Schema("object", [name], false, [], None, "", None, None, None)
    ensures Conforms(host, s, Obj([])) && !Conforms(WithoutPrototype(host), s, Obj([]))
  {
    assert JsonType(Obj([])) == "object";
    assert Lookup(WithoutPrototype(host), [], name) == None;
  }
}
