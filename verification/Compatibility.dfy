/**
  The contract compatibility checker of `packages/contracts/validate.py`: narrowings of request
  parameters, judged against what the compared keys mean in JSON Schema Validation 2020-12 (sections 6.1
  and 6.2) and how parameters override in OpenAPI 3.1.0 (section 4.8.12).
 */
module Compatibility {
  import opened Wrappers

  datatype Value = Null | Bool(flag: bool) | Num(number: real) | Str(text: string) | Arr(items: seq<Value>) | Obj(fields: map<string, Value>)

  type Object = map<string, Value>

  /** What Python's `==` looks at: a boolean equals the number one or zero, inside containers too. */
  function Twin(v: Value): Value {
    match v
    case Bool(flag) => Num(if flag then 1.0 else 0.0)
    case Arr(items) => Arr(seq(|items|, i requires 0 <= i < |items| => Twin(items[i])))
    case Obj(fields) => Obj(map k | k in fields :: Twin(fields[k]))
    case _ => v
  }

  /** `v in items`, as Python decides it. */
  predicate PyIn(v: Value, items: seq<Value>) {
    exists i | 0 <= i < |items| :: Twin(items[i]) == Twin(v)
  }

  /** `dict.get`: an absent key and a null read the same. */
  function Get(o: Object, key: string): Value {
    if key in o then o[key] else Null
  }

  const BOUNDS_UP: seq<string> := ["minimum", "exclusiveMinimum", "minLength", "minItems"]
  const BOUNDS_DOWN: seq<string> := ["maximum", "exclusiveMaximum", "maxLength", "maxItems"]

  // ----- The checker -----

  /** `None` when no type is declared at all. */
  function Types(schema: Object): Option<set<string>> {
    match Get(schema, "type")
    case Str(t) => Some({t})
    case Arr(items) => Some(set i | 0 <= i < |items| && items[i].Str? :: items[i].text)
    case _ => None
  }

  datatype Finding =
    | TypeAppeared | TypeNarrowed | FormatChanged | EnumDropped | EnumAppeared
    | BoundRaised(key: string) | BoundLowered(key: string)
    | Removed(param: Key) | BecameRequired(param: Key) | Narrowed(param: Key, what: Finding)

  predicate TypeAppears(was: Object, became: Object) {
    Types(became).Some? && Types(was).None?
  }

  predicate TypeNarrows(was: Object, became: Object) {
    Types(was).Some? && Types(became).Some? && Types(was).value != {} && Types(became).value != {} && !(Types(was).value <= Types(became).value)
  }

  predicate EnumDrops(was: Object, became: Object) {
    var before, after := Get(was, "enum"), Get(became, "enum");
    before.Arr? && after.Arr? && exists i | 0 <= i < |before.items| :: !PyIn(before.items[i], after.items)
  }

  predicate EnumAppears(was: Object, became: Object) {
    Get(became, "enum").Arr? && Get(was, "enum").Null?
  }

  predicate Raises(was: Object, became: Object, key: string) {
    var before, after := Get(was, key), Get(became, key);
    after.Num? && (!before.Num? || after.number > before.number)
  }

  predicate Lowers(was: Object, became: Object, key: string) {
    var before, after := Get(was, key), Get(became, key);
    after.Num? && (!before.Num? || after.number < before.number)
  }

  /** Nothing to report about one schema pair. */
  ghost predicate Clean(was: Object, became: Object) {
    && !TypeAppears(was, became) && !TypeNarrows(was, became)
    && Twin(Get(was, "format")) == Twin(Get(became, "format"))
    && !EnumDrops(was, became) && !EnumAppears(was, became)
    && (forall key | key in BOUNDS_UP :: !Raises(was, became, key))
    && (forall key | key in BOUNDS_DOWN :: !Lowers(was, became, key))
  }

  /** The findings about one schema pair, each exactly when it is due. */
  ghost predicate Reports(was: Object, became: Object, finding: Finding) {
    match finding
    case TypeAppeared => TypeAppears(was, became)
    case TypeNarrowed => TypeNarrows(was, became)
    case FormatChanged => Twin(Get(was, "format")) != Twin(Get(became, "format"))
    case EnumDropped => EnumDrops(was, became)
    case EnumAppeared => EnumAppears(was, became)
    case BoundRaised(key) => key in BOUNDS_UP && Raises(was, became, key)
    case BoundLowered(key) => key in BOUNDS_DOWN && Lowers(was, became, key)
    case _ => false
  }

  method BoundsRaised(was: Object, became: Object) returns (findings: seq<Finding>)
    ensures forall f :: f in findings <==> f.BoundRaised? && f.key in BOUNDS_UP && Raises(was, became, f.key)
  {
    findings := [];
    for k := 0 to |BOUNDS_UP|
      invariant forall f :: f in findings <==> f.BoundRaised? && f.key in BOUNDS_UP[..k] && Raises(was, became, f.key)
    {
      assert BOUNDS_UP[..k + 1] == BOUNDS_UP[..k] + [BOUNDS_UP[k]];
      if Raises(was, became, BOUNDS_UP[k]) {
        findings := findings + [BoundRaised(BOUNDS_UP[k])];
      }
    }
    assert BOUNDS_UP[..|BOUNDS_UP|] == BOUNDS_UP;
  }

  method BoundsLowered(was: Object, became: Object) returns (findings: seq<Finding>)
    ensures forall f :: f in findings <==> f.BoundLowered? && f.key in BOUNDS_DOWN && Lowers(was, became, f.key)
  {
    findings := [];
    for k := 0 to |BOUNDS_DOWN|
      invariant forall f :: f in findings <==> f.BoundLowered? && f.key in BOUNDS_DOWN[..k] && Lowers(was, became, f.key)
    {
      assert BOUNDS_DOWN[..k + 1] == BOUNDS_DOWN[..k] + [BOUNDS_DOWN[k]];
      if Lowers(was, became, BOUNDS_DOWN[k]) {
        findings := findings + [BoundLowered(BOUNDS_DOWN[k])];
      }
    }
    assert BOUNDS_DOWN[..|BOUNDS_DOWN|] == BOUNDS_DOWN;
  }

  method EnumFindings(was: Object, became: Object) returns (findings: seq<Finding>)
    ensures forall f :: f in findings <==> (f.EnumDropped? && EnumDrops(was, became)) || (f.EnumAppeared? && EnumAppears(was, became))
  {
    findings := [];
    if EnumDrops(was, became) {
      findings := [EnumDropped];
    } else if EnumAppears(was, became) {
      findings := [EnumAppeared];
    }
  }

  method TypeAndFormatFindings(was: Object, became: Object) returns (findings: seq<Finding>)
    ensures forall f :: f in findings <==>
              || (f.TypeAppeared? && TypeAppears(was, became)) || (f.TypeNarrowed? && TypeNarrows(was, became))
              || (f.FormatChanged? && Twin(Get(was, "format")) != Twin(Get(became, "format")))
  {
    findings := [];
    if TypeAppears(was, became) {
      findings := [TypeAppeared];
    } else if TypeNarrows(was, became) {
      findings := [TypeNarrowed];
    }
    if Twin(Get(was, "format")) != Twin(Get(became, "format")) {
      findings := findings + [FormatChanged];
    }
  }

  method ParameterSchemaFindings(was: Object, became: Object) returns (findings: seq<Finding>)
    ensures forall f :: f in findings <==> Reports(was, became, f)
    ensures findings == [] <==> Clean(was, became)
  {
    findings := TypeAndFormatFindings(was, became);
    var more := EnumFindings(was, became);
    findings := findings + more;
    more := BoundsRaised(was, became);
    findings := findings + more;
    more := BoundsLowered(was, became);
    findings := findings + more;
    AllReports(was, became, findings);
  }

  lemma AllReports(was: Object, became: Object, findings: seq<Finding>)
    requires forall f :: f in findings <==>
               || (f.TypeAppeared? && TypeAppears(was, became)) || (f.TypeNarrowed? && TypeNarrows(was, became))
               || (f.FormatChanged? && Twin(Get(was, "format")) != Twin(Get(became, "format")))
               || (f.EnumDropped? && EnumDrops(was, became)) || (f.EnumAppeared? && EnumAppears(was, became))
               || (f.BoundRaised? && f.key in BOUNDS_UP && Raises(was, became, f.key))
               || (f.BoundLowered? && f.key in BOUNDS_DOWN && Lowers(was, became, f.key))
    ensures forall f :: f in findings <==> Reports(was, became, f)
    ensures findings == [] <==> Clean(was, became)
  {
    forall f ensures f in findings <==> Reports(was, became, f) {}
    CleanMeansNoReports(was, became);
    if findings != [] { assert findings[0] in findings; }
  }

  lemma CleanMeansNoReports(was: Object, became: Object)
    ensures Clean(was, became) <==> forall f :: !Reports(was, became, f)
  {
    if forall f :: !Reports(was, became, f) {
      assert !Reports(was, became, TypeAppeared) && !Reports(was, became, TypeNarrowed) && !Reports(was, became, FormatChanged);
      assert !Reports(was, became, EnumDropped) && !Reports(was, became, EnumAppeared);
      forall key | key in BOUNDS_UP ensures !Raises(was, became, key) { assert !Reports(was, became, BoundRaised(key)); }
      forall key | key in BOUNDS_DOWN ensures !Lowers(was, became, key) { assert !Reports(was, became, BoundLowered(key)); }
    }
  }

  /** What each finding says of the two schemas; whatever is only widened or dropped is no finding. */
  lemma FindingsSpelledOut(was: Object, became: Object, key: string)
    ensures Reports(was, became, TypeAppeared) <==> Types(was).None? && Types(became).Some?
    ensures Reports(was, became, TypeNarrowed) <==>
            && Types(was).Some? && Types(became).Some? && Types(became).value != {}
            && exists t :: t in Types(was).value && t !in Types(became).value
    ensures Reports(was, became, EnumDropped) <==>
            && Get(was, "enum").Arr? && Get(became, "enum").Arr?
            && exists v :: v in Get(was, "enum").items && forall other | other in Get(became, "enum").items :: Twin(other) != Twin(v)
    ensures Reports(was, became, EnumAppeared) <==> Get(was, "enum") == Null && Get(became, "enum").Arr?
    ensures Reports(was, became, BoundRaised(key)) <==>
            && key in {"minimum", "exclusiveMinimum", "minLength", "minItems"} && Get(became, key).Num?
            && (Get(was, key).Num? ==> Get(was, key).number < Get(became, key).number)
    ensures Reports(was, became, BoundLowered(key)) <==>
            && key in {"maximum", "exclusiveMaximum", "maxLength", "maxItems"} && Get(became, key).Num?
            && (Get(was, key).Num? ==> Get(became, key).number < Get(was, key).number)
  {
    var before, after := Get(was, "enum"), Get(became, "enum");
    if before.Arr? && after.Arr? {
      forall v | v in before.items
        ensures PyIn(v, after.items) <==> exists other :: other in after.items && Twin(other) == Twin(v)
      {
        if other :| other in after.items && Twin(other) == Twin(v) { var i :| 0 <= i < |after.items| && after.items[i] == other; }
      }
      if EnumDrops(was, became) {
        var i :| 0 <= i < |before.items| && !PyIn(before.items[i], after.items);
        assert before.items[i] in before.items;
      }
      if v :| v in before.items && forall other | other in after.items :: Twin(other) != Twin(v) {
        var i :| 0 <= i < |before.items| && before.items[i] == v;
        assert !PyIn(before.items[i], after.items);
      }
    }
  }

  /** What `type` declares: one name, a list of names, or nothing. */
  lemma TypesSpelledOut(schema: Object, t: string)
    ensures Types(schema).None? <==> !("type" in schema && (schema["type"].Str? || schema["type"].Arr?))
    ensures Types(schema).Some? ==>
              (t in Types(schema).value <==> schema["type"] == Str(t) || (schema["type"].Arr? && Str(t) in schema["type"].items))
  {
  }

  // ----- What the compared keys mean -----

  /** Format names are left open: any reading of them will do, as long as it is the same on both sides. */
  type Formats = (string, Value) -> bool

  predicate HasType(v: Value, t: string) {
    match v
    case Null => t == "null"
    case Bool(_) => t == "boolean"
    case Num(n) => t == "number" || (t == "integer" && n.Floor as real == n)
    case Str(_) => t == "string"
    case Arr(_) => t == "array"
    case Obj(_) => t == "object"
  }

  /** One bound keyword applied to one value; a keyword says nothing about values of other types. */
  predicate WithinBound(key: string, bound: real, v: Value) {
    match v
    case Num(n) =>
      && (key == "minimum" ==> n >= bound) && (key == "exclusiveMinimum" ==> n > bound)
      && (key == "maximum" ==> n <= bound) && (key == "exclusiveMaximum" ==> n < bound)
    case Str(s) => (key == "minLength" ==> |s| as real >= bound) && (key == "maxLength" ==> |s| as real <= bound)
    case Arr(items) => (key == "minItems" ==> |items| as real >= bound) && (key == "maxItems" ==> |items| as real <= bound)
    case _ => true
  }

  predicate TypeAllows(schema: Object, v: Value) {
    Types(schema).None? || exists t | t in Types(schema).value :: HasType(v, t)
  }

  predicate EnumAllows(schema: Object, v: Value) {
    !Get(schema, "enum").Arr? || v in Get(schema, "enum").items
  }

  ghost predicate BoundsAllow(schema: Object, v: Value) {
    forall key | key in BOUNDS_UP + BOUNDS_DOWN :: Get(schema, key).Num? ==> WithinBound(key, Get(schema, key).number, v)
  }

  predicate FormatAllows(schema: Object, v: Value, formats: Formats) {
    Get(schema, "format").Str? ==> formats(Get(schema, "format").text, v)
  }

  ghost predicate Accepts(schema: Object, v: Value, formats: Formats) {
    TypeAllows(schema, v) && EnumAllows(schema, v) && BoundsAllow(schema, v) && FormatAllows(schema, v, formats)
  }

  /** As the standard demands: an `enum` is an array, and a declared `type` names at least one type. */
  predicate WellFormed(schema: Object) {
    && (Get(schema, "enum").Null? || Get(schema, "enum").Arr?)
    && (Types(schema).Some? ==> Types(schema).value != {})
  }

  /**
    The family the checker lets through by mistake: an old enumeration entry the old schema accepts is
    gone from the new enumeration, but Python finds an equal of another type there (`true` for `1`).
   */
  ghost predicate EnumRetyped(was: Object, became: Object, formats: Formats) {
    var before, after := Get(was, "enum"), Get(became, "enum");
    && before.Arr? && after.Arr?
    && exists v :: v in before.items && Accepts(was, v, formats) && v !in after.items && PyIn(v, after.items)
  }

  lemma BoundsWiden(was: Object, became: Object, v: Value)
    requires Clean(was, became) && BoundsAllow(was, v)
    ensures BoundsAllow(became, v)
  {
    forall key | key in BOUNDS_UP + BOUNDS_DOWN && Get(became, key).Num?
      ensures WithinBound(key, Get(became, key).number, v)
    {
      if key in BOUNDS_UP { assert !Raises(was, became, key); } else { assert !Lowers(was, became, key); }
      assert Get(was, key).Num? && WithinBound(key, Get(was, key).number, v);
    }
  }

  lemma TwinOfString(a: Value, b: Value)
    requires Twin(a) == Twin(b) && (a.Str? || b.Str?)
    ensures a == b
  {
  }

  lemma KeysButEnumWiden(was: Object, became: Object, v: Value, formats: Formats)
    requires WellFormed(was) && WellFormed(became) && Clean(was, became) && Accepts(was, v, formats)
    ensures TypeAllows(became, v) && BoundsAllow(became, v) && FormatAllows(became, v, formats)
  {
    BoundsWiden(was, became, v);
    if Get(became, "format").Str? { TwinOfString(Get(was, "format"), Get(became, "format")); }
    if Types(became).Some? {
      var t :| t in Types(was).value && HasType(v, t);
      assert t in Types(became).value;
    }
  }

  /**
    "No findings" means that every value legal before is legal now, except when an enumeration entry was
    swapped for its Python equal of another type: it holds if and only if that did not happen.
   */
  lemma NoFindingsExactlySound(was: Object, became: Object, formats: Formats)
    requires WellFormed(was) && WellFormed(became) && Clean(was, became)
    ensures (forall v :: Accepts(was, v, formats) ==> Accepts(became, v, formats)) <==> !EnumRetyped(was, became, formats)
  {
    if !EnumRetyped(was, became, formats) {
      forall v | Accepts(was, v, formats)
        ensures Accepts(became, v, formats)
      {
        KeysButEnumWiden(was, became, v, formats);
        if Get(became, "enum").Arr? {
          var before := Get(was, "enum").items;
          var i :| 0 <= i < |before| && before[i] == v;
          assert PyIn(before[i], Get(became, "enum").items);
        }
      }
    } else {
      var v :| v in Get(was, "enum").items && Accepts(was, v, formats) && v !in Get(became, "enum").items;
      assert !EnumAllows(became, v);
    }
  }

  /** The converse fails: `integer` widened to `number` is reported as a narrowing. */
  lemma WideningIsReported(v: Value, formats: Formats)
    ensures var was: Object, became: Object := map["type" := Str("integer")], map["type" := Str("number")];
            Reports(was, became, TypeNarrowed) && (Accepts(was, v, formats) ==> Accepts(became, v, formats))
  {
    var was: Object, became: Object := map["type" := Str("integer")], map["type" := Str("number")];
    assert Types(was) == Some({"integer"}) && Types(became) == Some({"number"});
    assert "integer" in Types(was).value && "integer" != "number";
    assert forall key | key in BOUNDS_UP + BOUNDS_DOWN :: Get(became, key) == Null;
  }

  predicate Flat(v: Value) { v.Null? || v.Num? || v.Str? }

  /** The mistake needs a boolean or a container: over flat enumerations the checker is sound as it stands. */
  lemma SoundOverFlatEnums(was: Object, became: Object, formats: Formats)
    requires WellFormed(was) && WellFormed(became) && Clean(was, became)
    requires Get(was, "enum").Arr? ==> forall v | v in Get(was, "enum").items :: Flat(v)
    requires Get(became, "enum").Arr? ==> forall v | v in Get(became, "enum").items :: Flat(v)
    ensures forall v :: Accepts(was, v, formats) ==> Accepts(became, v, formats)
  {
    if Get(was, "enum").Arr? && Get(became, "enum").Arr? {
      var before, after := Get(was, "enum").items, Get(became, "enum").items;
      forall v | v in before && v !in after
        ensures !PyIn(v, after)
      {
        forall i | 0 <= i < |after| ensures Twin(after[i]) != Twin(v) { assert after[i] in after; }
      }
    }
    NoFindingsExactlySound(was, became, formats);
  }

  /** A pair the checker passes although the new schema refuses the only value the old one took. */
  lemma RetypedEnumIsMissed(formats: Formats)
    ensures var was: Object, became: Object := map["enum" := Arr([Num(1.0)])], map["enum" := Arr([Bool(true)])];
            Clean(was, became) && Accepts(was, Num(1.0), formats) && !Accepts(became, Num(1.0), formats)
  {
    var was: Object, became: Object := map["enum" := Arr([Num(1.0)])], map["enum" := Arr([Bool(true)])];
    assert Twin([Bool(true)][0]) == Twin(Num(1.0));
    assert PyIn(Num(1.0), [Bool(true)]);
    assert Get(was, "enum").items[0] == Num(1.0);
  }

  lemma FindingsReflexive(schema: Object)
    ensures Clean(schema, schema)
  {
    if Get(schema, "enum").Arr? {
      var items := Get(schema, "enum").items;
      forall i | 0 <= i < |items| ensures PyIn(items[i], items) {}
    }
  }

  lemma EnumDropsTransitive(a: Object, b: Object, c: Object)
    requires WellFormed(b) && Clean(a, b) && Clean(b, c)
    ensures !EnumDrops(a, c) && !EnumAppears(a, c)
  {
    if Get(a, "enum").Arr? && Get(c, "enum").Arr? {
      var x, y, z := Get(a, "enum").items, Get(b, "enum").items, Get(c, "enum").items;
      forall i | 0 <= i < |x|
        ensures PyIn(x[i], z)
      {
        assert PyIn(x[i], y);
        var j :| 0 <= j < |y| && Twin(y[j]) == Twin(x[i]);
        assert PyIn(y[j], z);
      }
    }
  }

  /** Revisions can be judged one step at a time. */
  lemma FindingsTransitive(a: Object, b: Object, c: Object)
    requires WellFormed(a) && WellFormed(b) && WellFormed(c) && Clean(a, b) && Clean(b, c)
    ensures Clean(a, c)
  {
    EnumDropsTransitive(a, b, c);
    forall key | key in BOUNDS_UP ensures !Raises(a, c, key) { assert !Raises(a, b, key) && !Raises(b, c, key); }
    forall key | key in BOUNDS_DOWN ensures !Lowers(a, c, key) { assert !Lowers(a, b, key) && !Lowers(b, c, key); }
  }

  // ----- Parameters of an operation -----

  datatype Key = Key(place: string, name: string)

  /** What `lookup` answers to the local references of one document. */
  type Refs = map<string, Value>

  function Resolved(refs: Refs, param: Value): Option<Object> {
    if !param.Obj? then None
    else if "$ref" !in param.fields then Some(param.fields)
    else
      var target := param.fields["$ref"];
      if target.Str? && target.text in refs && refs[target.text].Obj? then Some(refs[target.text].fields) else None
  }

  function KeyOf(param: Object): Option<Key> {
    if Get(param, "name").Str? && Get(param, "in").Str? then Some(Key(Get(param, "in").text, Get(param, "name").text)) else None
  }

  /** The parameter under `key` if this entry declares one. */
  function Declares(refs: Refs, param: Value, key: Key): Option<Object> {
    var o := Resolved(refs, param);
    if o.Some? && KeyOf(o.value) == Some(key) then o else None
  }

  /** The last entry for `key`, if any. */
  function LastFor(refs: Refs, params: seq<Value>, key: Key): Option<Object> {
    if params == [] then None
    else
      var last := Declares(refs, params[|params| - 1], key);
      if last.Some? then last else LastFor(refs, params[..|params| - 1], key)
  }

  /** The operation's own declaration overrides the one of its path. */
  function Effective(refs: Refs, ofPath: seq<Value>, ofOperation: seq<Value>, key: Key): Option<Object> {
    var own := LastFor(refs, ofOperation, key);
    if own.Some? then own else LastFor(refs, ofPath, key)
  }

  /** The entry, or what its reference leads to, is this parameter under this place and name. */
  predicate Stands(refs: Refs, entry: Value, key: Key, param: Object) {
    && entry.Obj?
    && (if "$ref" in entry.fields
        then entry.fields["$ref"].Str? && entry.fields["$ref"].text in refs && refs[entry.fields["$ref"].text] == Obj(param)
        else entry.fields == param)
    && "name" in param && param["name"] == Str(key.name) && "in" in param && param["in"] == Str(key.place)
  }

  lemma DeclaresMeansStands(refs: Refs, entry: Value, key: Key, param: Object)
    ensures Declares(refs, entry, key) == Some(param) <==> Stands(refs, entry, key, param)
  {
  }

  /** This parameter stands at position `i`, and none stands after it. */
  predicate StandsLast(refs: Refs, params: seq<Value>, i: nat, key: Key, param: Object) {
    && i < |params| && Stands(refs, params[i], key, param)
    && forall j | i < j < |params| :: Declares(refs, params[j], key).None?
  }

  lemma {:induction false} StandingLastIsInForce(refs: Refs, params: seq<Value>, i: nat, key: Key, param: Object)
    requires StandsLast(refs, params, i, key, param)
    ensures LastFor(refs, params, key) == Some(param)
  {
    var n := |params| - 1;
    DeclaresMeansStands(refs, params[i], key, param);
    if i < n { StandingLastIsInForce(refs, params[..n], i, key, param); }
  }

  lemma {:induction false} InForceStandsLast(refs: Refs, params: seq<Value>, key: Key) returns (i: nat)
    requires LastFor(refs, params, key).Some?
    ensures StandsLast(refs, params, i, key, LastFor(refs, params, key).value)
  {
    var n := |params| - 1;
    if Declares(refs, params[n], key).Some? {
      i := n;
      DeclaresMeansStands(refs, params[n], key, LastFor(refs, params, key).value);
    } else {
      i := InForceStandsLast(refs, params[..n], key);
    }
  }

  /** The parameter in force under a place and name is the last one that stands there. */
  lemma LastStandsLast(refs: Refs, params: seq<Value>, key: Key, param: Object)
    ensures LastFor(refs, params, key) == Some(param) <==> exists i :: StandsLast(refs, params, i, key, param)
  {
    if LastFor(refs, params, key) == Some(param) {
      var i := InForceStandsLast(refs, params, key);
    }
    if i :| StandsLast(refs, params, i, key, param) { StandingLastIsInForce(refs, params, i, key, param); }
  }

  /** An operation's own declaration, wherever it stands, is preferred to its path's. */
  lemma OwnBeforePath(refs: Refs, ofPath: seq<Value>, ofOperation: seq<Value>, key: Key, param: Object)
    ensures Effective(refs, ofPath, ofOperation, key) == Some(param) <==>
            || (exists i :: StandsLast(refs, ofOperation, i, key, param))
            || ((exists i :: StandsLast(refs, ofPath, i, key, param)) && forall i, other :: !StandsLast(refs, ofOperation, i, key, other))
  {
    LastStandsLast(refs, ofPath, key, param);
    LastStandsLast(refs, ofOperation, key, param);
    var own := LastFor(refs, ofOperation, key);
    forall i, other | StandsLast(refs, ofOperation, i, key, other) ensures own == Some(other) {
      StandingLastIsInForce(refs, ofOperation, i, key, other);
    }
    if own.Some? { var i := InForceStandsLast(refs, ofOperation, key); }
  }

  method Merge(refs: Refs, merged: map<Key, Object>, params: seq<Value>) returns (result: map<Key, Object>)
    ensures forall key :: (if key in result then Some(result[key]) else None) ==
                          (if LastFor(refs, params, key).Some? then LastFor(refs, params, key)
                           else if key in merged then Some(merged[key]) else None)
  {
    result := merged;
    for n := 0 to |params|
      invariant forall key :: (if key in result then Some(result[key]) else None) ==
                              (if LastFor(refs, params[..n], key).Some? then LastFor(refs, params[..n], key)
                               else if key in merged then Some(merged[key]) else None)
    {
      assert params[..n + 1][..n] == params[..n];
      var o := Resolved(refs, params[n]);
      if o.Some? {
        var key := KeyOf(o.value);
        if key.Some? {
          result := result[key.value := o.value];
        }
      }
    }
    assert params[..|params|] == params;
  }

  method OperationParameters(refs: Refs, ofPath: seq<Value>, ofOperation: seq<Value>) returns (merged: map<Key, Object>)
    ensures forall key :: (if key in merged then Some(merged[key]) else None) == Effective(refs, ofPath, ofOperation, key)
  {
    merged := Merge(refs, map[], ofPath);
    merged := Merge(refs, merged, ofOperation);
  }

  function ParamSchema(refs: Refs, param: Object): Object {
    var schema := Get(param, "schema");
    if !schema.Obj? then map[]
    else
      var o := Resolved(refs, schema);
      if o.Some? then o.value else map[]
  }

  predicate Required(param: Object) {
    Get(param, "required") == Bool(true)
  }

  /** The parameters of one operation in one document. */
  datatype Parameters = Parameters(refs: Refs, declared: map<Key, Object>)

  ghost predicate ParameterClean(was: Parameters, became: Parameters, key: Key)
    requires key in was.declared
  {
    && key in became.declared
    && (Required(became.declared[key]) ==> Required(was.declared[key]))
    && Clean(ParamSchema(was.refs, was.declared[key]), ParamSchema(became.refs, became.declared[key]))
  }

  /** The findings about one operation, each exactly when it is due. */
  ghost predicate ReportsOn(was: Parameters, became: Parameters, finding: Finding) {
    match finding
    case Removed(key) => key in was.declared && key !in became.declared
    case BecameRequired(key) =>
      && key in was.declared && key in became.declared
      && Get(became.declared[key], "required") == Bool(true) && Get(was.declared[key], "required") != Bool(true)
    case Narrowed(key, what) =>
      && key in was.declared && key in became.declared
      && Reports(ParamSchema(was.refs, was.declared[key]), ParamSchema(became.refs, became.declared[key]), what)
    case _ => false
  }

  function KeyIn(finding: Finding): Option<Key> {
    match finding
    case Removed(key) => Some(key)
    case BecameRequired(key) => Some(key)
    case Narrowed(key, _) => Some(key)
    case _ => None
  }

  method OneParameterFindings(was: Parameters, became: Parameters, key: Key) returns (findings: seq<Finding>)
    requires key in was.declared
    ensures forall f :: f in findings <==> ReportsOn(was, became, f) && KeyIn(f) == Some(key)
  {
    if key !in became.declared {
      return [Removed(key)];
    }
    findings := [];
    if Required(became.declared[key]) && !Required(was.declared[key]) {
      findings := findings + [BecameRequired(key)];
    }
    var details := ParameterSchemaFindings(ParamSchema(was.refs, was.declared[key]), ParamSchema(became.refs, became.declared[key]));
    var labelled := seq(|details|, i requires 0 <= i < |details| => Narrowed(key, details[i]));
    forall f ensures f in labelled <==> f.Narrowed? && f.param == key && f.what in details {
      if f.Narrowed? && f.param == key && f.what in details {
        var i :| 0 <= i < |details| && details[i] == f.what;
        assert labelled[i] == f;
      }
    }
    findings := findings + labelled;
  }

  method OperationFindings(was: Parameters, became: Parameters) returns (findings: seq<Finding>)
    ensures forall f :: f in findings <==> ReportsOn(was, became, f)
    ensures findings == [] <==> forall key | key in was.declared :: ParameterClean(was, became, key)
  {
    findings := [];
    var left := was.declared.Keys;
    while left != {}
      invariant left <= was.declared.Keys
      invariant forall f :: f in findings <==> ReportsOn(was, became, f) && KeyIn(f).value !in left
      decreases left
    {
      var key :| key in left;
      var more := OneParameterFindings(was, became, key);
      findings := findings + more;
      left := left - {key};
    }
    NoReportsMeansClean(was, became);
    if findings != [] { assert findings[0] in findings; }
  }

  lemma NoReportsMeansClean(was: Parameters, became: Parameters)
    ensures (forall f :: !ReportsOn(was, became, f)) <==> forall key | key in was.declared :: ParameterClean(was, became, key)
  {
    if forall f :: !ReportsOn(was, became, f) {
      forall key | key in was.declared ensures ParameterClean(was, became, key) {
        assert !ReportsOn(was, became, Removed(key)) && !ReportsOn(was, became, BecameRequired(key));
        var a, b := ParamSchema(was.refs, was.declared[key]), ParamSchema(became.refs, became.declared[key]);
        forall f ensures !Reports(a, b, f) { assert !ReportsOn(was, became, Narrowed(key, f)); }
        CleanMeansNoReports(a, b);
      }
    } else {
      var f :| ReportsOn(was, became, f);
      var key := KeyIn(f).value;
      if f.Narrowed? { CleanMeansNoReports(ParamSchema(was.refs, was.declared[key]), ParamSchema(became.refs, became.declared[key])); }
      assert !ParameterClean(was, became, key);
    }
  }

  /** The schema of a parameter: its own, or the one its reference leads to, or nothing at all. */
  lemma SchemaSpelledOut(refs: Refs, param: Object)
    ensures !("schema" in param && param["schema"].Obj?) ==> ParamSchema(refs, param) == map[]
    ensures "schema" in param && param["schema"].Obj? ==>
              var schema := param["schema"].fields;
              ParamSchema(refs, param) ==
              if "$ref" !in schema then schema
              else if schema["$ref"].Str? && schema["$ref"].text in refs && refs[schema["$ref"].text].Obj? then refs[schema["$ref"].text].fields
              else map[]
  {
  }

  type Request = map<Key, Value>

  /** A request carries declared parameters only, all required ones among them, each accepted by its schema. */
  ghost predicate LegalRequest(request: Request, params: Parameters, formats: Formats) {
    && request.Keys <= params.declared.Keys
    && (forall key | key in params.declared && Required(params.declared[key]) :: key in request)
    && forall key | key in request :: Accepts(ParamSchema(params.refs, params.declared[key]), request[key], formats)
  }

  ghost predicate SchemasWellFormed(params: Parameters) {
    forall key | key in params.declared :: WellFormed(ParamSchema(params.refs, params.declared[key]))
  }

  ghost predicate NothingRetyped(was: Parameters, became: Parameters, formats: Formats) {
    forall key | key in was.declared && key in became.declared ::
      !EnumRetyped(ParamSchema(was.refs, was.declared[key]), ParamSchema(became.refs, became.declared[key]), formats)
  }

  /**
    Yesterday's requests stay legal: for an operation of both revisions without findings, whose new
    revision requires nothing undeclared before and retypes no enumeration.
   */
  lemma OldRequestsStayLegal(was: Parameters, became: Parameters, request: Request, formats: Formats)
    requires SchemasWellFormed(was) && SchemasWellFormed(became)
    requires forall key | key in was.declared :: ParameterClean(was, became, key)
    requires forall key | key in became.declared && Required(became.declared[key]) :: key in was.declared
    requires NothingRetyped(was, became, formats)
    requires LegalRequest(request, was, formats)
    ensures LegalRequest(request, became, formats)
  {
    forall key | key in became.declared && Required(became.declared[key])
      ensures key in request
    {
      assert ParameterClean(was, became, key);
    }
    forall key | key in request
      ensures key in became.declared && Accepts(ParamSchema(became.refs, became.declared[key]), request[key], formats)
    {
      assert ParameterClean(was, became, key);
      NoFindingsExactlySound(ParamSchema(was.refs, was.declared[key]), ParamSchema(became.refs, became.declared[key]), formats);
    }
  }
}
