/**
 * The envelope validator of crosschain/standards/validate.ts: a recursive check that collects every error,
 * proved to be empty exactly for conforming values and to report exactly what fails, where it fails.
 */
module Validator {
  import opened Wrappers

  datatype Entry = Entry(name: string, value: Value)

  /** A value at run time. Numbers are finite; an object lists its own entries in order. */
  datatype Value =
    | Undefined
    | Null
    | Bool(bit: bool)
    | Num(number: real)
    | Str(text: string)
    | Arr(items: seq<Value>)
    | Obj(entries: seq<Entry>)
    | Func

  datatype Property = Property(key: string, schema: Schema)

  datatype Schema = Schema(
    kind: string,
    required: seq<string>,
    closed: bool,
    properties: seq<Property>,
    constant: Option<Value>,
    pattern: string,
    minimum: Option<real>,
    maximum: Option<real>,
    minLength: Option<real>)

  datatype Problem =
    | NotConst(constant: Value)
    | WrongType(expected: string, actual: string)
    | NoMatch(pattern: string)
    | TooShort(limit: real)
    | BelowMinimum(limit: real)
    | AboveMaximum(limit: real)
    | Required
    | Additional

  datatype Violation = Violation(path: string, problem: Problem)

  datatype ValidationResult = ValidationResult(ok: bool, errors: seq<Violation>)

  /** What the language supplies: members every object inherits, and the regular expression engine. */
  datatype Host = Host(inherited: map<string, Value>, matches: (string, string) -> bool)

  // ---- The language's own operations ---------------------------------------------------------------

  function JsonType(v: Value): string {
    match v
    case Undefined => "undefined"
    case Null => "null"
    case Bool(_) => "boolean"
    case Num(n) => if n == n.Floor as real then "integer" else "number"
    case Str(_) => "string"
    case Arr(_) => "array"
    case Obj(_) => "object"
    case Func => "function"
  }

  /** The length of a string, which counts UTF-16 code units. */
  function Units(s: string): (n: nat)
    ensures |s| <= n <= 2 * |s|
  {
    if s == "" then 0
    else Units(s[..|s| - 1]) + if s[|s| - 1] as int >= 0x1_0000 then 2 else 1
  }

  /** `===` against a constant of the schema: a compound constant is another object, so never identical. */
  predicate Identical(v: Value, c: Value) {
    v == c && !v.Arr? && !v.Obj? && !v.Func?
  }

  function OwnNames(entries: seq<Entry>): (names: seq<string>)
    ensures |names| == |entries|
  {
    seq(|entries|, i requires 0 <= i < |entries| => entries[i].name)
  }

  function Own(entries: seq<Entry>, name: string): Option<Value> {
    if entries == [] then None
    else if entries[|entries| - 1].name == name then Some(entries[|entries| - 1].value)
    else Own(entries[..|entries| - 1], name)
  }

  /** Property lookup: own entries first, then the inherited members; `in` asks whether it finds anything. */
  function Lookup(host: Host, entries: seq<Entry>, name: string): Option<Value> {
    if Own(entries, name).Some? then Own(entries, name)
    else if name in host.inherited then Some(host.inherited[name])
    else None
  }

  function Under(path: string, key: string): string {
    path + "." + key
  }

  function PropertyNames(s: Schema): set<string> {
    set i | 0 <= i < |s.properties| :: s.properties[i].key
  }

  /** Nested checks apply to plain objects, and only under a schema of type object. */
  predicate Opened(s: Schema, v: Value) {
    s.kind == "object" && v.Obj?
  }

  // ---- The errors, in the order they are reported --------------------------------------------------

  function Complaint(fails: bool, path: string, problem: Problem): seq<Violation> {
    if fails then [Violation(path, problem)] else []
  }

  function LocalErrors(host: Host, s: Schema, v: Value, path: string): seq<Violation> {
    (if s.constant.Some? then Complaint(!Identical(v, s.constant.value), path, NotConst(s.constant.value)) else []) +
    Complaint(s.kind != "" && JsonType(v) != s.kind, path, WrongType(s.kind, JsonType(v))) +
    StringErrors(host, s, v, path) +
    NumberErrors(s, v, path)
  }

  function StringErrors(host: Host, s: Schema, v: Value, path: string): seq<Violation> {
    if !v.Str? then []
    else
      Complaint(s.pattern != "" && !host.matches(s.pattern, v.text), path, NoMatch(s.pattern)) +
      if s.minLength.Some?
      then Complaint(Units(v.text) as real < s.minLength.value, path, TooShort(s.minLength.value)) else []
  }

  function NumberErrors(s: Schema, v: Value, path: string): seq<Violation> {
    if !v.Num? then []
    else
      (if s.minimum.Some? then Complaint(v.number < s.minimum.value, path, BelowMinimum(s.minimum.value)) else []) +
      if s.maximum.Some? then Complaint(v.number > s.maximum.value, path, AboveMaximum(s.maximum.value)) else []
  }

  function RequiredErrors(host: Host, names: seq<string>, entries: seq<Entry>, path: string): seq<Violation> {
    if names == [] then []
    else
      var name := names[|names| - 1];
      RequiredErrors(host, names[..|names| - 1], entries, path) +
      Complaint(Lookup(host, entries, name) == None, Under(path, name), Required)
  }

  function AdditionalErrors(allowed: set<string>, names: seq<string>, path: string): seq<Violation> {
    if names == [] then []
    else
      var name := names[|names| - 1];
      AdditionalErrors(allowed, names[..|names| - 1], path) +
      Complaint(name !in allowed, Under(path, name), Additional)
  }

  function Concat(lists: seq<seq<Violation>>): seq<Violation> {
    if lists == [] then [] else Concat(lists[..|lists| - 1]) + lists[|lists| - 1]
  }

  /** The errors of the value found under property i, if there is one. */
  function ChildErrors(host: Host, s: Schema, i: nat, entries: seq<Entry>, path: string): seq<Violation>
    requires i < |s.properties|
    decreases s, 0
  {
    var p := s.properties[i];
    var found := Lookup(host, entries, p.key);
    if found.Some? then Errors(host, p.schema, found.value, Under(path, p.key)) else []
  }

  /** The error lists of the first n properties. */
  function ChildLists(host: Host, s: Schema, n: nat, entries: seq<Entry>, path: string): (lists: seq<seq<Violation>>)
    requires n <= |s.properties|
    ensures |lists| == n && forall i | 0 <= i < n :: lists[i] == ChildErrors(host, s, i, entries, path)
    decreases s, 1
  {
    seq(n, i requires 0 <= i < n => ChildErrors(host, s, i, entries, path))
  }

  function Errors(host: Host, s: Schema, v: Value, path: string): seq<Violation>
    decreases s, 2
  {
    LocalErrors(host, s, v, path) +
    if !Opened(s, v) then []
    else
      RequiredErrors(host, s.required, v.entries, path) +
      Concat(ChildLists(host, s, |s.properties|, v.entries, path)) +
      if s.closed then AdditionalErrors(PropertyNames(s), OwnNames(v.entries), path) else []
  }

  // ---- The program ---------------------------------------------------------------------------------

  method ValidateNode(host: Host, schema: Schema, value: Value, path: string) returns (result: ValidationResult)
    ensures result.errors == Errors(host, schema, value, path)
    ensures result.ok <==> result.errors == []
    decreases schema, 1
  {
    hide ChildLists, Concat, RequiredErrors, AdditionalErrors, LocalErrors, OwnNames, PropertyNames;
    var errors := CheckHere(host, schema, value, path);
    if Opened(schema, value) {
      var missing := CheckRequired(host, schema.required, value.entries, path);
      var nested := CheckProperties(host, schema, value.entries, path);
      errors := errors + (missing + nested);
      if schema.closed {
        var extra := CheckAdditional(PropertyNames(schema), OwnNames(value.entries), path);
        errors := errors + extra;
      }
    }
    result := ValidationResult(errors == [], errors);
  }

  /** Constant, type, and the bounds that go with strings and numbers. */
  method CheckHere(host: Host, schema: Schema, value: Value, path: string) returns (errors: seq<Violation>)
    ensures errors == LocalErrors(host, schema, value, path)
  {
    hide JsonType, Identical, StringErrors, NumberErrors;
    errors := [];
    if schema.constant.Some? && !Identical(value, schema.constant.value) {
      errors := [Violation(path, NotConst(schema.constant.value))];
    }
    if schema.kind != "" {
      var actual := JsonType(value);
      if actual != schema.kind {
        errors := errors + [Violation(path, WrongType(schema.kind, actual))];
      }
    }
    var bounds := CheckString(host, schema, value, path);
    errors := errors + bounds;
    bounds := CheckNumber(schema, value, path);
    errors := errors + bounds;
  }

  method CheckString(host: Host, schema: Schema, value: Value, path: string) returns (errors: seq<Violation>)
    ensures errors == StringErrors(host, schema, value, path)
  {
    errors := [];
    if value.Str? {
      if schema.pattern != "" && !host.matches(schema.pattern, value.text) {
        errors := [Violation(path, NoMatch(schema.pattern))];
      }
      if schema.minLength.Some? && Units(value.text) as real < schema.minLength.value {
        errors := errors + [Violation(path, TooShort(schema.minLength.value))];
      }
    }
  }

  method CheckNumber(schema: Schema, value: Value, path: string) returns (errors: seq<Violation>)
    ensures errors == NumberErrors(schema, value, path)
  {
    errors := [];
    if value.Num? {
      if schema.minimum.Some? && value.number < schema.minimum.value {
        errors := [Violation(path, BelowMinimum(schema.minimum.value))];
      }
      if schema.maximum.Some? && value.number > schema.maximum.value {
        errors := errors + [Violation(path, AboveMaximum(schema.maximum.value))];
      }
    }
  }

  method CheckRequired(host: Host, required: seq<string>, entries: seq<Entry>, path: string)
    returns (errors: seq<Violation>)
    ensures errors == RequiredErrors(host, required, entries, path)
  {
    hide Lookup, Under;
    errors := [];
    for i := 0 to |required|
      invariant errors == RequiredErrors(host, required[..i], entries, path)
    {
      assert required[..i + 1][..i] == required[..i];
      if Lookup(host, entries, required[i]) == None {
        errors := errors + [Violation(Under(path, required[i]), Required)];
      }
    }
    assert required[..|required|] == required;
  }

  method CheckProperties(host: Host, schema: Schema, entries: seq<Entry>, path: string)
    returns (errors: seq<Violation>)
    ensures errors == Concat(ChildLists(host, schema, |schema.properties|, entries, path))
    decreases schema, 0
  {
    hide Lookup, Under, Errors;
    errors := [];
    for i := 0 to |schema.properties|
      invariant errors == Concat(ChildLists(host, schema, i, entries, path))
    {
      ghost var lists := ChildLists(host, schema, i + 1, entries, path);
      assert lists[..i] == ChildLists(host, schema, i, entries, path);
      var key := schema.properties[i].key;
      var found := Lookup(host, entries, key);
      if found.Some? {
        var child := ValidateNode(host, schema.properties[i].schema, found.value, Under(path, key));
        errors := errors + child.errors;
      }
    }
  }

  method CheckAdditional(allowed: set<string>, names: seq<string>, path: string) returns (errors: seq<Violation>)
    ensures errors == AdditionalErrors(allowed, names, path)
  {
    hide Under;
    errors := [];
    for i := 0 to |names|
      invariant errors == AdditionalErrors(allowed, names[..i], path)
    {
      assert names[..i + 1][..i] == names[..i];
      if names[i] !in allowed {
        errors := errors + [Violation(Under(path, names[i]), Additional)];
      }
    }
    assert names[..|names|] == names;
  }
}
