module OutputContract {
  // Structured output contracts (model_worker/output_contract): a schema is parsed into a
  // contract, the contract is compiled to a GBNF grammar for the sampler, and an independent
  // validator checks the decoded value.

  import opened Basics
  import opened Json

  datatype TypeName = StringType | IntegerType | BooleanType | NullType

  datatype Rule = Rule(name: string, types: seq<TypeName>, enum: Option<seq<Value>>)

  datatype Contract = Contract(rules: seq<Rule>)

  // ----- parse_contract -----

  /** Where a schema is refused. */
  datatype Place = AtRoot | AtProperties | AtRequired | AtProperty(name: string) | AtType(name: string) | AtEnum(name: string)

  datatype Outcome<+T> = Ok(value: T) | Unsupported(place: Place)

  function TypeOf(name: string): Option<TypeName> {
    if name == "string" then Some(StringType) else if name == "integer" then Some(IntegerType)
    else if name == "boolean" then Some(BooleanType) else if name == "null" then Some(NullType) else None
  }

  /** `type(value) is ...`: the exact Python type, so True is not an integer. */
  predicate HasType(v: Value, t: TypeName) {
    match t case StringType => v.VStr? case IntegerType => v.VInt? case BooleanType => v.VBool? case NullType => v.VNull?
  }

  predicate AnyType(v: Value, types: seq<TypeName>) { exists k :: 0 <= k < |types| && HasType(v, types[k]) }

  /** `dict.get`. */
  function Get(members: seq<Member>, key: string): Option<Value>
    decreases |members|
  {
    if members == [] then None
    else if members[0].key == key then Some(members[0].value)
    else Get(members[1..], key)
  }

  predicate OnlyKeys(members: seq<Member>, allowed: set<string>) {
    forall k :: 0 <= k < |members| ==> members[k].key in allowed
  }

  /** The declared types of a property; None where the parser fails. */
  function ReadTypes(raw: Option<Value>): Option<seq<TypeName>> {
    if raw.None? then None
    else match raw.value
      case VStr(s) => if TypeOf(s).Some? then Some([TypeOf(s).value]) else None
      case VList(items) => if items == [] then None else ReadTypeList(items)
      case _ => None
  }

  function ReadTypeList(items: seq<Value>): Option<seq<TypeName>>
    decreases |items|
  {
    if items == [] then Some([])
    else if !items[0].VStr? || TypeOf(items[0].s).None? then None
    else
      var rest := ReadTypeList(items[1..]);
      if rest.None? then None else Some([TypeOf(items[0].s).value] + rest.value)
  }

  predicate DistinctTypes(types: seq<TypeName>) { forall i, j :: 0 <= i < j < |types| ==> types[i] != types[j] }

  /** One primitive, optionally together with null. */
  predicate SupportedTypes(types: seq<TypeName>) {
    && 0 < |types| <= 2 && DistinctTypes(types)
    && (|types| == 2 ==> NullType in types)
  }

  predicate SupportedEnum(values: seq<Value>, types: seq<TypeName>) {
    && values != []
    && (forall k :: 0 <= k < |values| ==> AnyType(values[k], types))
    && (forall i, j :: 0 <= i < j < |values| ==> values[i] != values[j])
  }

  function ParseRule(name: string, spec: Value): Outcome<Rule> {
    if name == "" || !spec.VDict? then Unsupported(AtProperty(name))
    else if !OnlyKeys(spec.members, {"type", "enum"}) then Unsupported(AtProperty(name))
    else
      var types := ReadTypes(Get(spec.members, "type"));
      if types.None? || !SupportedTypes(types.value) then Unsupported(AtType(name))
      else match Get(spec.members, "enum")
        case None => Ok(Rule(name, types.value, None))
        case Some(e) =>
          if !e.VList? || !SupportedEnum(e.items, types.value) then Unsupported(AtEnum(name))
          else Ok(Rule(name, types.value, Some(e.items)))
  }

  const MAX_PROPERTIES: nat := 64

  predicate RequiredMatches(required: Value, properties: seq<Member>) {
    && required.VList?
    && |required.items| == |properties|
    && forall k :: 0 <= k < |properties| ==> required.items[k] == VStr(properties[k].key)
  }

  function RootRefusal(schema: Value): Option<Place> {
    if !schema.VDict? then Some(AtRoot)
    else
      var m := schema.members;
      if !OnlyKeys(m, {"type", "properties", "required", "additionalProperties"}) then Some(AtRoot)
      else if Get(m, "type") != Some(VStr("object")) || Get(m, "additionalProperties") != Some(VBool(false)) then Some(AtRoot)
      else
        var p, r := Get(m, "properties"), Get(m, "required");
        if p.None? || !p.value.VDict? || p.value.members == [] || |p.value.members| > MAX_PROPERTIES then Some(AtProperties)
        else if r.None? || !RequiredMatches(r.value, p.value.members) then Some(AtRequired)
        else None
  }

  /** The rules of the first `n` properties, or the first failure. */
  function ParseRules(properties: seq<Member>, n: nat): Outcome<seq<Rule>>
    requires n <= |properties|
    decreases n
  {
    if n == 0 then Ok([])
    else
      var before := ParseRules(properties, n - 1);
      if before.Unsupported? then before
      else
        var rule := ParseRule(properties[n - 1].key, properties[n - 1].value);
        if rule.Unsupported? then Unsupported(rule.place) else Ok(before.value + [rule.value])
  }

  function ParsedContract(schema: Value): Outcome<Contract> {
    var refusal := RootRefusal(schema);
    if refusal.Some? then Unsupported(refusal.value)
    else
      var p := Get(schema.members, "properties").value.members;
      var rules := ParseRules(p, |p|);
      if rules.Unsupported? then Unsupported(rules.place) else Ok(Contract(rules.value))
  }

  method ParseContract(schema: Value) returns (r: Outcome<Contract>)
    ensures r == ParsedContract(schema)
  {
    var refusal := RootRefusal(schema);
    if refusal.Some? { return Unsupported(refusal.value); }
    var properties := Get(schema.members, "properties").value.members;
    var rules: seq<Rule> := [];
    for n := 0 to |properties|
      invariant ParseRules(properties, n) == Ok(rules)
    {
      var rule := ParseRule(properties[n].key, properties[n].value);
      if rule.Unsupported? {
        FailureStays(properties, n + 1, |properties|);
        return Unsupported(rule.place);
      }
      rules := rules + [rule.value];
    }
    return Ok(Contract(rules));
  }

  lemma {:induction false} FailureStays(properties: seq<Member>, n: nat, total: nat)
    requires n <= total <= |properties| && ParseRules(properties, n).Unsupported?
    ensures ParseRules(properties, total) == ParseRules(properties, n)
    decreases total - n
  {
    if n < total { FailureStays(properties, n, total - 1); }
  }

  // ----- what the parser guarantees -----

  predicate RuleOk(r: Rule) {
    r.name != "" && SupportedTypes(r.types) && (r.enum.Some? ==> SupportedEnum(r.enum.value, r.types))
  }

  function Names(rules: seq<Rule>): seq<string> { seq(|rules|, k requires 0 <= k < |rules| => rules[k].name) }

  predicate ContractOk(c: Contract) {
    && 0 < |c.rules| <= MAX_PROPERTIES
    && (forall k :: 0 <= k < |c.rules| ==> RuleOk(c.rules[k]))
    && Distinct(Names(c.rules))
  }

  lemma {:induction false} ParseRulesOk(properties: seq<Member>, n: nat)
    requires n <= |properties| && ParseRules(properties, n).Ok?
    ensures var rules := ParseRules(properties, n).value;
            && |rules| == n
            && forall k :: 0 <= k < n ==> RuleOk(rules[k]) && rules[k].name == properties[k].key
    decreases n
  {
    if n > 0 { ParseRulesOk(properties, n - 1); }
  }

  lemma {:induction false} GetIsMember(members: seq<Member>, key: string)
    requires Get(members, key).Some?
    ensures exists k :: 0 <= k < |members| && members[k] == Member(key, Get(members, key).value)
    decreases |members|
  {
    if members[0].key != key {
      GetIsMember(members[1..], key);
      var k :| 0 <= k < |members[1..]| && members[1..][k] == Member(key, Get(members, key).value);
      assert members[k + 1] == members[1..][k];
    } else {
      assert members[0] == Member(key, Get(members, key).value);
    }
  }

  /** Every schema the parser accepts gives a contract with distinct non-empty names and, per
      property, one primitive type with or without null and an enum of values of those types. */
  lemma ParsedIsOk(schema: Value)
    requires UniqueKeys(schema) && ParsedContract(schema).Ok?
    ensures ContractOk(ParsedContract(schema).value)
  {
    var p := Get(schema.members, "properties").value.members;
    ParseRulesOk(p, |p|);
    GetIsMember(schema.members, "properties");
    var rules := ParsedContract(schema).value.rules;
    assert UniqueKeys(VDict(p));
    forall i, j | 0 <= i < j < |rules|
      ensures Names(rules)[i] != Names(rules)[j]
    {
      assert Keys(p)[i] != Keys(p)[j];
    }
  }

  // ----- validate_output -----

  /** Python's `==` on the values an enum or an output may hold: a bool equals the int it
      counts as. */
  predicate PyEqual(a: Value, b: Value) {
    || a == b
    || (a.VBool? && b.VInt? && b.i == if a.b then 1 else 0)
    || (a.VInt? && b.VBool? && a.i == if b.b then 1 else 0)
  }

  predicate InEnum(v: Value, values: seq<Value>) { exists k :: 0 <= k < |values| && PyEqual(v, values[k]) }

  predicate Matches(v: Value, r: Rule) { AnyType(v, r.types) && (r.enum.None? || InEnum(v, r.enum.value)) }

  /** The error paths the validator reports; none: the value is accepted. */
  function Validate(v: Value, c: Contract): seq<string> {
    if !v.VDict? || Keys(v.members) != Names(c.rules) then ["$"] else Violations(v.members, c.rules)
  }

  function Violations(members: seq<Member>, rules: seq<Rule>): seq<string>
    decreases |rules|
  {
    if rules == [] then []
    else
      var r := rules[|rules| - 1];
      var v := Get(members, r.name);
      Violations(members, rules[..|rules| - 1]) + (if v.Some? && Matches(v.value, r) then [] else ["$." + r.name])
  }

  /** The one-primitive-plus-null rule is what keeps Python's 1 == True out of enums: under it,
      enum membership is membership of the very value. */
  lemma EnumIsExact(v: Value, r: Rule)
    requires RuleOk(r) && r.enum.Some? && AnyType(v, r.types)
    ensures InEnum(v, r.enum.value) <==> v in r.enum.value
  {
    forall k | 0 <= k < |r.enum.value| && PyEqual(v, r.enum.value[k])
      ensures v == r.enum.value[k]
    {
      assert AnyType(r.enum.value[k], r.types);
    }
  }

  /** Without that rule the validator would take True for the enum value 1. */
  lemma MixedEnumWouldConfuse()
    ensures var r := Rule("flag", [IntegerType, BooleanType], Some([VInt(1)]));
            && !SupportedTypes(r.types) && Matches(VBool(true), r) && VBool(true) !in r.enum.value
  {
    var r := Rule("flag", [IntegerType, BooleanType], Some([VInt(1)]));
    assert HasType(VBool(true), r.types[1]);
    assert PyEqual(VBool(true), r.enum.value[0]);
  }

  // ----- compile_gbnf -----

  /** The bracket expressions of the grammar. */
  datatype CharClass = NonZeroDigit | AnyDigit | AnyHex | AnySpace | PlainChar | EscapeLetter

  predicate InClass(c: char, k: CharClass) {
    match k
    case NonZeroDigit => '1' <= c <= '9'
    case AnyDigit => IsDigit(c)
    case AnyHex => IsHex(c)
    case AnySpace => IsSpace(c)
    case PlainChar => c != '"' && c != '\\' && c as int != 0x7F && !IsControl(c)
    case EscapeLetter => IsSimpleEscape(c)
  }

  /** Grammar expressions with rule references inlined: no rule refers back to itself. */
  datatype Expr =
    | Lit(text: string)
    | Class(kind: CharClass)
    | Cat(parts: seq<Expr>)
    | Alt(options: seq<Expr>)
    | Star(body: Expr)
    | Maybe(body: Expr)

  /** `t` is derived from `e`. */
  ghost predicate Derives(e: Expr, t: string)
    decreases |t|, e, 1
  {
    match e
    case Lit(text) => t == text
    case Class(k) => |t| == 1 && InClass(t[0], k)
    case Cat(parts) => DerivesAll(parts, t)
    case Alt(options) => exists k :: 0 <= k < |options| && Derives(options[k], t)
    case Star(body) => t == "" || exists k :: 0 < k <= |t| && Derives(body, t[..k]) && Derives(e, t[k..])
    case Maybe(body) => t == "" || Derives(body, t)
  }

  ghost predicate DerivesAll(parts: seq<Expr>, t: string)
    decreases |t|, parts, 0
  {
    if parts == [] then t == ""
    else exists k :: 0 <= k <= |t| && Derives(parts[0], t[..k]) && DerivesAll(parts[1..], t[k..])
  }

  const WS := Star(Class(AnySpace))
  const JSON_INTEGER := Cat([Maybe(Lit("-")), Alt([Lit("0"), Cat([Class(NonZeroDigit), Star(Class(AnyDigit))])])])
  const FOUR_HEX := [Class(AnyHex), Class(AnyHex), Class(AnyHex), Class(AnyHex)]
  const UNICODE := Cat([Lit("u")] + FOUR_HEX)
  const ESCAPE := Cat([Lit("\\"), Alt([Class(EscapeLetter), UNICODE])])
  const JSON_CHAR := Alt([Class(PlainChar), ESCAPE])
  const JSON_STRING := Cat([Lit("\""), Star(JSON_CHAR), Lit("\"")])

  function TypeExpr(t: TypeName): Expr {
    match t
    case StringType => JSON_STRING
    case IntegerType => JSON_INTEGER
    case BooleanType => Alt([Lit("true"), Lit("false")])
    case NullType => Lit("null")
  }

  function EnumExpr(values: seq<Value>): Expr
    requires forall k :: 0 <= k < |values| ==> IsScalar(values[k])
  {
    Alt(seq(|values|, k requires 0 <= k < |values| => Lit(Dumps(values[k]))))
  }

  lemma EnumIsScalar(r: Rule)
    requires RuleOk(r) && r.enum.Some?
    ensures forall k :: 0 <= k < |r.enum.value| ==> IsScalar(r.enum.value[k])
  {
  }

  function ValueExpr(r: Rule): Expr
    requires RuleOk(r)
  {
    if r.enum.Some? then EnumIsScalar(r); EnumExpr(r.enum.value)
    else Alt(seq(|r.types|, k requires 0 <= k < |r.types| => TypeExpr(r.types[k])))
  }

  function MemberParts(r: Rule): seq<Expr>
    requires RuleOk(r)
  {
    [Lit(Dumps(VStr(r.name))), WS, Lit(":"), WS, ValueExpr(r)]
  }

  /** `' "," ws '.join(members)`. */
  function JoinMembers(members: seq<seq<Expr>>): seq<Expr>
    decreases |members|
  {
    if members == [] then []
    else if |members| == 1 then members[0]
    else members[0] + ([Lit(","), WS] + JoinMembers(members[1..]))
  }

  function MembersOf(rules: seq<Rule>): seq<seq<Expr>>
    requires forall k :: 0 <= k < |rules| ==> RuleOk(rules[k])
  {
    seq(|rules|, k requires 0 <= k < |rules| => MemberParts(rules[k]))
  }

  function Grammar(c: Contract): Expr
    requires ContractOk(c)
  {
    Cat([Lit("{"), WS] + (JoinMembers(MembersOf(c.rules)) + [Lit("}"), WS]))
  }

  method CompileGbnf(c: Contract) returns (root: Expr)
    requires ContractOk(c)
    ensures root == Grammar(c)
  {
    var members: seq<seq<Expr>> := [];
    for n := 0 to |c.rules|
      invariant members == MembersOf(c.rules[..n])
    {
      members := members + [MemberParts(c.rules[n])];
    }
    assert c.rules[..|c.rules|] == c.rules;
    root := Cat([Lit("{"), WS] + (JoinMembers(members) + [Lit("}"), WS]));
  }

  // ----- literals in grammar text -----

  /** `_terminal`: a grammar literal is the string serialized as JSON. */
  function Terminal(s: string): string { QuoteText(s, false) }

  /** How a grammar reader undoes the quoting of a literal's characters. */
  function ReadLiteral(t: string): Option<string>
    decreases |t|
  {
    if t == "" then None
    else if t == "\"" then Some("")
    else if t[0] == '"' then None
    else if t[0] == '\\' then
      if |t| >= 2 && (t[1] == '"' || t[1] == '\\') then Prepend(t[1], ReadLiteral(t[2..])) else None
    else Prepend(t[0], ReadLiteral(t[1..]))
  }

  function Prepend(c: char, t: Option<string>): Option<string> { if t.None? then None else Some([c] + t.value) }
}
