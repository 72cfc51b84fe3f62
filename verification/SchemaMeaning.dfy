/** What a schema asks for, said of the schema value itself: which values conform to it, and
    which schemas are supported at all. Parser, validator and grammar are then measured against
    it. */
module SchemaMeaning {
  import opened Basics
  import opened Json
  import opened OutputContract
  import opened ContractAgreement

  predicate Has(v: Value, key: string, value: Value) { v.VDict? && Member(key, value) in v.members }

  predicate HasKey(v: Value, key: string) { v.VDict? && key in Keys(v.members) }

  // ----- conforming values -----

  /** The four kinds of value a property may have, by the name a schema gives them. */
  predicate OfKind(v: Value, kind: Value) {
    || (kind == VStr("string") && v.VStr?)
    || (kind == VStr("integer") && v.VInt?)
    || (kind == VStr("boolean") && v.VBool?)
    || (kind == VStr("null") && v.VNull?)
  }

  /** "type" names the kind, alone or in a list. */
  predicate Allows(kinds: Value, v: Value) { OfKind(v, kinds) || (kinds.VList? && exists k :: k in kinds.items && OfKind(v, k)) }

  ghost predicate ConformsTo(spec: Value, v: Value) {
    && (exists kinds: Value :: Has(spec, "type", kinds) && Allows(kinds, v))
    && (forall values: seq<Value> :: Has(spec, "enum", VList(values)) ==> v in values)
  }

  /** An object with exactly the schema's properties, in their order, each conforming. */
  ghost predicate Conforming(schema: Value, v: Value) {
    exists properties: seq<Member> ::
      && Has(schema, "properties", VDict(properties))
      && v.VDict? && Keys(v.members) == Keys(properties)
      && forall k :: 0 <= k < |properties| ==> ConformsTo(properties[k].value, v.members[k].value)
  }

  // ----- supported schemas -----

  /** Names of kinds: one of the four, or a non-empty list of them without repetition; with
      two, one is null. */
  predicate SupportedKinds(kinds: Value) {
    || IsKind(kinds)
    || (kinds.VList? && |kinds.items| == 1 && IsKind(kinds.items[0]))
    || (&& kinds.VList? && |kinds.items| == 2 && IsKind(kinds.items[0]) && IsKind(kinds.items[1])
        && kinds.items[0] != kinds.items[1] && VStr("null") in kinds.items)
  }

  predicate IsKind(v: Value) { v in [VStr("string"), VStr("integer"), VStr("boolean"), VStr("null")] }

  predicate KeysWithin(v: Value, allowed: set<string>) { v.VDict? && forall key :: key in Keys(v.members) ==> key in allowed }

  predicate SupportedValues(values: seq<Value>, kinds: Value) {
    && values != []
    && (forall v :: v in values ==> Allows(kinds, v))
    && (forall i, j :: 0 <= i < j < |values| ==> values[i] != values[j])
  }

  ghost predicate SupportedProperty(name: string, spec: Value) {
    && name != "" && KeysWithin(spec, {"type", "enum"})
    && exists kinds: Value :: Has(spec, "type", kinds) && SupportedKinds(kinds)
         && (HasKey(spec, "enum") ==> exists values: seq<Value> :: Has(spec, "enum", VList(values)) && SupportedValues(values, kinds))
  }

  /** The checks on the root itself. */
  ghost predicate RootIsObject(schema: Value) {
    && KeysWithin(schema, {"type", "properties", "required", "additionalProperties"})
    && Has(schema, "type", VStr("object")) && Has(schema, "additionalProperties", VBool(false))
  }

  ghost predicate HasProperties(schema: Value, properties: seq<Member>) {
    Has(schema, "properties", VDict(properties)) && 1 <= |properties| <= 64
  }

  ghost predicate RequiresAll(schema: Value, properties: seq<Member>) {
    HasProperties(schema, properties) && Has(schema, "required", VList(KeyValues(properties)))
  }

  /** All properties are required, in their order, and each is supported. */
  ghost predicate Supported(schema: Value) {
    && RootIsObject(schema)
    && exists properties: seq<Member> ::
         && RequiresAll(schema, properties)
         && forall k :: 0 <= k < |properties| ==> SupportedProperty(properties[k].key, properties[k].value)
  }

  function KeyValues(properties: seq<Member>): seq<Value> {
    seq(|properties|, k requires 0 <= k < |properties| => VStr(properties[k].key))
  }

  // ----- look-ups -----

  lemma {:induction false} GetExactly(members: seq<Member>, key: string, value: Value)
    requires Distinct(Keys(members))
    ensures Get(members, key) == Some(value) <==> Member(key, value) in members
    ensures Get(members, key).None? <==> key !in Keys(members)
    decreases |members|
  {
    if members != [] {
      var rest := members[1..];
      assert Keys(rest) == Keys(members)[1..];
      assert members == [members[0]] + rest;
      assert Keys(members) == [members[0].key] + Keys(rest);
      GetExactly(rest, key, value);
      forall k | 0 <= k < |rest|
        ensures Keys(rest)[k] == rest[k].key != members[0].key
      {
        assert Keys(members)[k + 1] == Keys(rest)[k] && Keys(members)[0] == members[0].key;
      }
    }
  }

  // ----- the declared kinds -----

  lemma TypeOfName(name: string, v: Value)
    ensures TypeOf(name).Some? <==> IsKind(VStr(name))
    ensures TypeOf(name).Some? ==> (HasType(v, TypeOf(name).value) <==> OfKind(v, VStr(name)))
  {
  }

  lemma SameTypeSameName(a: string, b: string)
    requires TypeOf(a).Some? && TypeOf(b).Some?
    ensures TypeOf(a) == TypeOf(b) <==> a == b
    ensures TypeOf(a) == Some(NullType) <==> a == "null"
  {
  }

  lemma {:induction false} ListRead(items: seq<Value>)
    ensures ReadTypeList(items).Some? <==> forall k :: 0 <= k < |items| ==> IsKind(items[k])
    ensures ReadTypeList(items).Some? ==>
              var types := ReadTypeList(items).value;
              && |types| == |items|
              && forall k :: 0 <= k < |items| ==> items[k].VStr? && TypeOf(items[k].s) == Some(types[k])
    decreases |items|
  {
    if items != [] {
      ListRead(items[1..]);
      assert items == [items[0]] + items[1..];
      if items[0].VStr? { TypeOfName(items[0].s, VNull); }
    }
  }

  /** The parser's types are the kinds named. */
  lemma TypesRead(kinds: Value, v: Value)
    requires ReadTypes(Some(kinds)).Some?
    ensures AnyType(v, ReadTypes(Some(kinds)).value) <==> Allows(kinds, v)
  {
    hide TypeOf;
    hide IsKind;
    var types := ReadTypes(Some(kinds)).value;
    match kinds
    case VStr(s) =>
      TypeOfName(s, v);
      assert HasType(v, types[0]) ==> AnyType(v, types);
    case VList(items) =>
      ListRead(items);
      forall k | 0 <= k < |items|
        ensures HasType(v, types[k]) <==> OfKind(v, items[k])
      {
        TypeOfName(items[k].s, v);
      }
      if Allows(kinds, v) {
        var k :| 0 <= k < |items| && OfKind(v, items[k]);
        assert HasType(v, types[k]);
      }
  }

  lemma TypesSupported(kinds: Value)
    ensures ReadTypes(Some(kinds)).Some? && SupportedTypes(ReadTypes(Some(kinds)).value) <==> SupportedKinds(kinds)
  {
    match kinds
    case VStr(s) => TypeOfName(s, VNull);
    case VList(items) =>
      hide IsKind;
      ListRead(items);
      if ReadTypeList(items).Some? && |items| == 2 { SameTypeSameName(items[0].s, items[1].s); }
      if ReadTypeList(items).Some? {
        forall k | 0 <= k < |items|
          ensures ReadTypeList(items).value[k] == NullType <==> items[k] == VStr("null")
        {
          SameTypeSameName(items[k].s, "null");
        }
      }
    case _ =>
  }

  // ----- one property -----

  /** Where a property is refused. */
  lemma PropertyRefusedAt(name: string, spec: Value)
    requires UniqueKeys(spec)
    ensures ParseRule(name, spec) == Unsupported(AtProperty(name)) <==> name == "" || !KeysWithin(spec, {"type", "enum"})
    ensures ParseRule(name, spec) == Unsupported(AtType(name)) <==>
              name != "" && KeysWithin(spec, {"type", "enum"}) && !exists kinds: Value :: Has(spec, "type", kinds) && SupportedKinds(kinds)
    ensures ParseRule(name, spec) == Unsupported(AtEnum(name)) <==>
              && name != "" && KeysWithin(spec, {"type", "enum"}) && HasKey(spec, "enum")
              && exists kinds: Value :: Has(spec, "type", kinds) && SupportedKinds(kinds)
                   && !exists values: seq<Value> :: Has(spec, "enum", VList(values)) && SupportedValues(values, kinds)
    ensures ParseRule(name, spec).Ok? <==> SupportedProperty(name, spec)
    ensures ParseRule(name, spec).Unsupported? ==> ParseRule(name, spec).place in {AtProperty(name), AtType(name), AtEnum(name)}
  {
    hide SupportedTypes;
    hide SupportedEnum;
    hide SupportedKinds;
    hide SupportedValues;
    if name != "" && spec.VDict? {
      SpecLookups(spec);
      KeysWithinMeansOnly(spec.members, {"type", "enum"});
      var kinds := Get(spec.members, "type");
      if kinds.Some? {
        TypesSupported(kinds.value);
        if ReadTypes(kinds).Some? {
          var e := Get(spec.members, "enum");
          if e.Some? && e.value.VList? { ValuesSupported(e.value.items, kinds.value); }
        }
      }
    }
  }

  lemma KeysWithinMeansOnly(members: seq<Member>, allowed: set<string>)
    ensures KeysWithin(VDict(members), allowed) <==> OnlyKeys(members, allowed)
  {
    if KeysWithin(VDict(members), allowed) {
      forall k | 0 <= k < |members|
        ensures members[k].key in allowed
      {
        assert Keys(members)[k] == members[k].key;
      }
    }
  }

  lemma SpecLookups(spec: Value)
    requires spec.VDict? && UniqueKeys(spec)
    ensures forall key, value :: Get(spec.members, key) == Some(value) <==> Has(spec, key, value)
    ensures forall key :: Get(spec.members, key).None? <==> !HasKey(spec, key)
  {
    forall key, value
      ensures Get(spec.members, key) == Some(value) <==> Has(spec, key, value)
      ensures Get(spec.members, key).None? <==> !HasKey(spec, key)
    {
      GetExactly(spec.members, key, value);
    }
    forall key
      ensures Get(spec.members, key).None? <==> !HasKey(spec, key)
    {
      GetExactly(spec.members, key, VNull);
    }
  }

  lemma ValuesSupported(values: seq<Value>, kinds: Value)
    requires ReadTypes(Some(kinds)).Some?
    ensures SupportedEnum(values, ReadTypes(Some(kinds)).value) <==> SupportedValues(values, kinds)
  {
    hide AnyType;
    hide Allows;
    hide ReadTypes;
    forall k | 0 <= k < |values|
      ensures AnyType(values[k], ReadTypes(Some(kinds)).value) <==> Allows(kinds, values[k])
    {
      TypesRead(kinds, values[k]);
    }
  }

  lemma RuleMeans(name: string, spec: Value, v: Value)
    requires UniqueKeys(spec) && ParseRule(name, spec).Ok?
    ensures Matches(v, ParseRule(name, spec).value) <==> ConformsTo(spec, v)
  {
    hide AnyType;
    hide Allows;
    assert Get(spec.members, "type").Some?;
    hide ReadTypes;
    hide SupportedTypes;
    hide SupportedEnum;
    hide InEnum;
    SpecLookups(spec);
    var kinds := Get(spec.members, "type").value;
    TypesRead(kinds, v);
    var r := ParseRule(name, spec).value;
    if r.enum.Some? && AnyType(v, r.types) { EnumIsExact(v, r); }
  }

  // ----- the whole schema -----

  lemma RequiredMeans(required: Value, properties: seq<Member>)
    ensures RequiredMatches(required, properties) <==> required == VList(KeyValues(properties))
  {
    if required.VList? && |required.items| == |properties| && (forall k :: 0 <= k < |properties| ==> required.items[k] == VStr(properties[k].key)) {
      assert required.items == KeyValues(properties);
    }
  }

  lemma RootLooksUp(schema: Value)
    requires UniqueKeys(schema) && schema.VDict?
    ensures var m := schema.members;
            && (RootIsObject(schema) <==>
                  && OnlyKeys(m, {"type", "properties", "required", "additionalProperties"})
                  && Get(m, "type") == Some(VStr("object")) && Get(m, "additionalProperties") == Some(VBool(false)))
            && (forall p: seq<Member> :: HasProperties(schema, p) <==> Get(m, "properties") == Some(VDict(p)) && 1 <= |p| <= 64)
            && (forall p: seq<Member> :: RequiresAll(schema, p) <==>
                  HasProperties(schema, p) && Get(m, "required") == Some(VList(KeyValues(p))))
  {
    hide KeysWithin;
    hide OnlyKeys;
    hide Get;
    hide Has;
    hide KeyValues;
    KeysWithinMeansOnly(schema.members, {"type", "properties", "required", "additionalProperties"});
    OneLookup(schema, "type", VStr("object"));
    OneLookup(schema, "additionalProperties", VBool(false));
    forall p: seq<Member>
      ensures HasProperties(schema, p) <==> Get(schema.members, "properties") == Some(VDict(p)) && 1 <= |p| <= 64
      ensures RequiresAll(schema, p) <==> HasProperties(schema, p) && Get(schema.members, "required") == Some(VList(KeyValues(p)))
    {
      OneLookup(schema, "properties", VDict(p));
      OneLookup(schema, "required", VList(KeyValues(p)));
    }
  }

  lemma OneLookup(spec: Value, key: string, value: Value)
    requires UniqueKeys(spec) && spec.VDict?
    ensures Get(spec.members, key) == Some(value) <==> Has(spec, key, value)
  {
    SpecLookups(spec);
  }

  /** Where the root is refused. */
  lemma RootRefusedAt(schema: Value)
    requires UniqueKeys(schema)
    ensures RootRefusal(schema) == Some(AtRoot) <==> !RootIsObject(schema)
    ensures RootRefusal(schema) == Some(AtProperties) <==>
              RootIsObject(schema) && !exists p: seq<Member> :: HasProperties(schema, p)
    ensures RootRefusal(schema) == Some(AtRequired) <==>
              && RootIsObject(schema) && (exists p: seq<Member> :: HasProperties(schema, p))
              && !exists p: seq<Member> :: RequiresAll(schema, p)
    ensures RootRefusal(schema).None? <==> RootIsObject(schema) && exists p: seq<Member> :: RequiresAll(schema, p)
  {
    hide OnlyKeys;
    hide Get;
    hide RequiredMatches;
    hide RequiresAll;
    hide HasProperties;
    if schema.VDict? {
      hide RootIsObject;
      RootLooksUp(schema);
      var p, r := Get(schema.members, "properties"), Get(schema.members, "required");
      if p.Some? && p.value.VDict? {
        assert HasProperties(schema, p.value.members) <==> 1 <= |p.value.members| <= 64;
        if r.Some? { RequiredMeans(r.value, p.value.members); }
      }
    }
  }

  lemma {:induction false} RulesParsed(properties: seq<Member>, n: nat)
    requires n <= |properties|
    ensures ParseRules(properties, n).Ok? <==> forall k :: 0 <= k < n ==> ParseRule(properties[k].key, properties[k].value).Ok?
    ensures ParseRules(properties, n).Ok? ==>
              var rules := ParseRules(properties, n).value;
              |rules| == n && forall k :: 0 <= k < n ==> ParseRule(properties[k].key, properties[k].value) == Ok(rules[k])
    decreases n
  {
    hide ParseRule;
    if n > 0 { RulesParsed(properties, n - 1); }
  }

  /** The properties of a schema are one. */
  lemma OneProperties(schema: Value, a: seq<Member>, b: seq<Member>)
    requires UniqueKeys(schema) && Has(schema, "properties", VDict(a)) && Has(schema, "properties", VDict(b))
    ensures a == b
  {
    SpecLookups(schema);
  }

  lemma PropertiesUnique(schema: Value, properties: seq<Member>)
    requires UniqueKeys(schema) && Has(schema, "properties", VDict(properties))
    ensures UniqueKeys(VDict(properties))
  {
    var k :| 0 <= k < |schema.members| && schema.members[k] == Member("properties", VDict(properties));
  }

  /** The parser accepts exactly the supported schemas. */
  lemma AcceptsExactly(schema: Value)
    requires UniqueKeys(schema)
    ensures ParsedContract(schema).Ok? <==> Supported(schema)
  {
    hide ParseRule;
    hide SupportedProperty;
    hide RootRefusal;
    hide KeysWithin;
    RootRefusedAt(schema);
    if RootRefusal(schema).None? {
      var p: seq<Member> :| RequiresAll(schema, p);
      SpecLookups(schema);
      PropertiesUnique(schema, p);
      RulesParsed(p, |p|);
      forall k | 0 <= k < |p|
        ensures ParseRule(p[k].key, p[k].value).Ok? <==> SupportedProperty(p[k].key, p[k].value)
      {
        PropertyRefusedAt(p[k].key, p[k].value);
      }
      assert Get(schema.members, "properties") == Some(VDict(p));
    }
  }

  lemma {:induction false} FirstRefusal(properties: seq<Member>, n: nat, k: nat)
    requires k < n <= |properties|
    requires ParseRules(properties, k).Ok? && ParseRule(properties[k].key, properties[k].value).Unsupported?
    ensures ParseRules(properties, n) == Unsupported(ParseRule(properties[k].key, properties[k].value).place)
    decreases n
  {
    hide ParseRule;
    if n > k + 1 { FirstRefusal(properties, n - 1, k); }
  }

  /** A schema refused for a property is refused for the first unsupported one. */
  lemma RefusesFirst(schema: Value, properties: seq<Member>, k: nat)
    requires UniqueKeys(schema) && RootIsObject(schema) && RequiresAll(schema, properties) && k < |properties|
    requires forall j :: 0 <= j < k ==> SupportedProperty(properties[j].key, properties[j].value)
    requires !SupportedProperty(properties[k].key, properties[k].value)
    ensures ParseRule(properties[k].key, properties[k].value).Unsupported?
    ensures ParsedContract(schema) == Unsupported(ParseRule(properties[k].key, properties[k].value).place)
  {
    hide ParseRule;
    hide SupportedProperty;
    hide RootRefusal;
    RootRefusedAt(schema);
    RootLooksUp(schema);
    PropertiesUnique(schema, properties);
    forall j | 0 <= j <= k
      ensures ParseRule(properties[j].key, properties[j].value).Ok? <==> SupportedProperty(properties[j].key, properties[j].value)
    {
      PropertyRefusedAt(properties[j].key, properties[j].value);
    }
    RulesParsed(properties, k);
    FirstRefusal(properties, |properties|, k);
  }

  lemma {:induction false} NoneViolated(members: seq<Member>, rules: seq<Rule>)
    ensures Violations(members, rules) == [] <==>
              forall k :: 0 <= k < |rules| ==> Get(members, rules[k].name).Some? && Matches(Get(members, rules[k].name).value, rules[k])
    decreases |rules|
  {
    hide Matches;
    if rules != [] { NoneViolated(members, rules[..|rules| - 1]); }
  }

  lemma ValidatesProperties(v: Value, properties: seq<Member>, c: Contract)
    requires Distinct(Keys(properties)) && UniqueKeys(VDict(properties)) && |c.rules| == |properties|
    requires forall k :: 0 <= k < |properties| ==> ParseRule(properties[k].key, properties[k].value) == Ok(c.rules[k])
    ensures Validate(v, c) == [] <==>
              && v.VDict? && Keys(v.members) == Keys(properties)
              && forall k :: 0 <= k < |properties| ==> ConformsTo(properties[k].value, v.members[k].value)
  {
    hide Matches;
    hide ConformsTo;
    hide ParseRule;
    forall k | 0 <= k < |properties|
      ensures c.rules[k].name == properties[k].key
    {
      RuleNamed(properties[k].key, properties[k].value);
    }
    assert Names(c.rules) == Keys(properties);
    if v.VDict? && Keys(v.members) == Keys(properties) {
      NoneViolated(v.members, c.rules);
      forall k | 0 <= k < |properties|
        ensures Get(v.members, c.rules[k].name) == Some(v.members[k].value)
        ensures Matches(v.members[k].value, c.rules[k]) <==> ConformsTo(properties[k].value, v.members[k].value)
      {
        assert Keys(v.members)[k] == Keys(properties)[k];
        GetExactly(v.members, c.rules[k].name, v.members[k].value);
        RuleMeans(properties[k].key, properties[k].value, v.members[k].value);
      }
    }
  }

  lemma RuleNamed(name: string, spec: Value)
    ensures ParseRule(name, spec).Ok? ==> ParseRule(name, spec).value.name == name
  {
  }

  /** For every schema the parser accepts, the validator reports nothing exactly for the values
      that conform to the schema. */
  lemma ValidatesExactly(schema: Value, v: Value)
    requires UniqueKeys(schema) && ParsedContract(schema).Ok?
    ensures Validate(v, ParsedContract(schema).value) == [] <==> Conforming(schema, v)
  {
    hide ParseRule;
    hide ConformsTo;
    hide RootRefusal;
    hide Validate;
    RootRefusedAt(schema);
    var p: seq<Member> :| RequiresAll(schema, p);
    SpecLookups(schema);
    assert Get(schema.members, "properties") == Some(VDict(p));
    PropertiesUnique(schema, p);
    RulesParsed(p, |p|);
    ValidatesProperties(v, p, ParsedContract(schema).value);
    if q: seq<Member> :| Has(schema, "properties", VDict(q)) { OneProperties(schema, p, q); }
    if Conforming(schema, v) {
      var q: seq<Member> :|
        && Has(schema, "properties", VDict(q))
        && v.VDict? && Keys(v.members) == Keys(q)
        && forall k :: 0 <= k < |q| ==> ConformsTo(q[k].value, v.members[k].value);
      OneProperties(schema, p, q);
    }
  }

  /** The compiler end to end: for every supported schema the values of the texts the sampler
      may produce are exactly the values that conform to the schema. */
  lemma GrammarMeansSchema(schema: Value, v: Value)
    requires UniqueKeys(schema) && Supported(schema)
    ensures ParsedContract(schema).Ok? && ContractOk(ParsedContract(schema).value)
    ensures Conforming(schema, v) <==>
              exists t :: Derives(Grammar(ParsedContract(schema).value), t) && Loads(t) == Loaded(v)
  {
    AcceptsExactly(schema);
    ParsedIsOk(schema);
    ValidatesExactly(schema, v);
    GrammarAgreesWithValidator(schema, v);
  }
}
