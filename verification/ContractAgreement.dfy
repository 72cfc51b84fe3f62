module ContractAgreement {
  // The compiled grammar against the independent validator: what the sampler may write is what
  // the validator accepts.

  import opened Basics
  import opened Json
  import opened OutputContract
  import opened GrammarForms
  import opened Surrogates

  // ----- values -----

  /** The text of a value, read in a place where `rest` follows, is `p`. */
  predicate ReadsAs(t: string, rest: string, v: Value, paired: bool) {
    t != "" && !IsSpace(t[0]) && ReadValue(t + rest) == Parsed(v, paired, rest)
  }

  lemma ReadIntegerValue(neg: bool, d: string, rest: string)
    requires IsNatural(d) && Delimited(rest)
    ensures ReadsAs((if neg then "-" else "") + d, rest, VInt(Signed(neg, DigitsValue(d))), true)
  {
    hide ReadNumber;
    hide DigitsValue;
    ReadInteger(neg, d, rest);
    var t := (if neg then "-" else "") + d + rest;
    assert t[0] == if neg then '-' else d[0];
    assert IsDigit(d[0]);
  }

  lemma ReadWord(word: string, v: Value, rest: string)
    requires (word == "null" && v == VNull) || (word == "true" && v == VBool(true)) || (word == "false" && v == VBool(false))
    ensures ReadsAs(word, rest, v, true)
  {
    assert (word + rest)[0] == word[0] && (word + rest)[..|word|] == word && (word + rest)[|word|..] == rest;
  }

  lemma ReadQuotedValue(s: string, del: bool, rest: string)
    ensures ReadsAs(QuoteText(s, del), rest, VStr(s), true)
  {
    hide ReadText;
    ReadQuoted(s, del, rest);
    assert (QuoteText(s, del) + rest)[1..] == EscapeText(s, del) + ("\"" + rest);
  }

  lemma ReadIntText(i: int, rest: string)
    requires Delimited(rest)
    ensures ReadsAs(IntText(i), rest, VInt(i), true)
  {
    hide ReadsAs;
    var n: nat := if i < 0 then -i else i;
    ReadIntegerValue(i < 0, Digits(n), rest);
    assert "" + Digits(n) == Digits(n);
  }

  /** Reading undoes `json.dumps` on scalars. */
  lemma ReadDumps(v: Value, rest: string)
    requires IsScalar(v) && Delimited(rest)
    ensures ReadsAs(Dumps(v), rest, v, true)
  {
    hide ReadsAs;
    match v
    case VNull => ReadWord("null", v, rest);
    case VBool(b) => ReadWord(Dumps(v), v, rest);
    case VInt(i) => ReadIntText(i, rest);
    case VStr(s) => ReadQuotedValue(s, false, rest);
  }

  lemma StringForm(t: string) returns (b: string)
    requires Derives(JSON_STRING, t)
    ensures t == "\"" + b + "\"" && IsBody(b)
  {
    var chars := Star(JSON_CHAR);
    assert JSON_STRING.parts == [Lit("\"")] + ([chars] + [Lit("\"")]);
    var rest := CutLiteral("\"", [chars] + [Lit("\"")], t);
    var k := CutFirst(chars, [Lit("\"")], rest);
    Single(Lit("\""), rest[k..]);
    b := rest[..k];
    BodyForm(b);
  }

  lemma StringDerived(b: string)
    requires IsBody(b)
    ensures Derives(JSON_STRING, "\"" + b + "\"")
  {
    var chars := Star(JSON_CHAR);
    BodyForm(b);
    Single(Lit("\""), "\"");
    PutFirst(chars, [Lit("\"")], b, "\"");
    PutFirst(Lit("\""), [chars] + [Lit("\"")], "\"", b + "\"");
    assert JSON_STRING.parts == [Lit("\"")] + ([chars] + [Lit("\"")]);
    assert "\"" + b + "\"" == "\"" + (b + "\"");
  }

  lemma ReadStringValue(b: string, rest: string) returns (s: string, paired: bool)
    requires IsBody(b)
    ensures ReadsAs("\"" + b + "\"", rest, VStr(s), paired) && (paired <==> Paired(b))
  {
    hide ReadText;
    hide Paired;
    ReadBody(b, rest);
    var t := ReadText(b + ("\"" + rest));
    s, paired := t.value, t.paired;
    assert ("\"" + b + "\"" + rest)[1..] == b + ("\"" + rest);
  }

  /** Texts of a type read as values of that type. */
  lemma TypeForm(ty: TypeName, t: string, rest: string) returns (v: Value, paired: bool)
    requires Derives(TypeExpr(ty), t) && Delimited(rest)
    ensures ReadsAs(t, rest, v, paired) && HasType(v, ty) && PairsLike(t, rest, paired)
  {
    hide ReadsAs;
    hide Paired;
    match ty
    case StringType =>
      var b := StringForm(t);
      var s;
      s, paired := ReadStringValue(b, rest);
      StringInFront(b, rest);
      v := VStr(s);
    case IntegerType =>
      var neg, d := IntegerForm(t);
      ReadIntegerValue(neg, d, rest);
      PlainInFront(t, rest);
      v, paired := VInt(Signed(neg, DigitsValue(d))), true;
    case BooleanType =>
      v, paired := BooleanForm(t, rest);
      PlainInFront(t, rest);
    case NullType =>
      ReadWord("null", VNull, rest);
      PlainInFront(t, rest);
      v, paired := VNull, true;
  }

  /** In front of `rest`, the text `t` pairs up its surrogates exactly when `paired` says so. */
  predicate PairsLike(t: string, rest: string, paired: bool) { Paired(t + rest) <==> paired && Paired(rest) }

  /** Serialized scalars hold no surrogate escapes. */
  lemma DumpsInFront(v: Value, x: string)
    requires IsScalar(v)
    ensures Paired(Dumps(v) + x) <==> Paired(x)
  {
    hide Paired;
    match v
    case VStr(s) => QuotedInFront(s, false, x);
    case VInt(i) =>
      assert AllDigits(Digits(if i < 0 then -i else i));
      PlainInFront(Dumps(v), x);
    case VBool(b) => PlainInFront(Dumps(v), x);
    case VNull => PlainInFront(Dumps(v), x);
  }

  lemma BooleanForm(t: string, rest: string) returns (v: Value, paired: bool)
    requires Derives(TypeExpr(BooleanType), t)
    ensures ReadsAs(t, rest, v, paired) && v.VBool? && paired && (t == "true" || t == "false")
  {
    hide ReadsAs;
    var options := [Lit("true"), Lit("false")];
    assert TypeExpr(BooleanType).options == options;
    var k :| 0 <= k < |options| && Derives(options[k], t);
    assert t == "true" || t == "false";
    v, paired := VBool(t == "true"), true;
    ReadWord(t, v, rest);
  }

  /** Texts of a property read as values the validator accepts for it. */
  lemma ValueForm(r: Rule, t: string, rest: string) returns (v: Value, paired: bool)
    requires RuleOk(r) && Derives(ValueExpr(r), t) && Delimited(rest)
    ensures ReadsAs(t, rest, v, paired) && IsScalar(v) && Matches(v, r) && PairsLike(t, rest, paired)
  {
    hide ReadsAs;
    hide Paired;
    if r.enum.Some? {
      EnumIsScalar(r);
      var options := EnumExpr(r.enum.value).options;
      var k :| 0 <= k < |options| && Derives(options[k], t);
      v, paired := r.enum.value[k], true;
      assert PyEqual(v, r.enum.value[k]);
      ReadDumps(v, rest);
      DumpsInFront(v, rest);
    } else {
      var options := ValueExpr(r).options;
      var k :| 0 <= k < |options| && Derives(options[k], t);
      v, paired := TypeForm(r.types[k], t, rest);
    }
  }

  /** The text the grammar has for a value: U+007F is escaped where a free string stands. */
  function ValueText(v: Value, r: Rule): string
    requires IsScalar(v)
  {
    if r.enum.None? && v.VStr? then QuoteText(v.s, true) else Dumps(v)
  }

  lemma EscapedIsUnit(c: char)
    ensures IsUnit(EscapeChar(c, true))
  {
  }

  lemma UnitThenBody(u: string, b: string)
    requires IsUnit(u) && IsBody(b)
    ensures IsBody(u + b)
  {
    assert (u + b)[..|u|] == u && (u + b)[|u|..] == b;
  }

  lemma {:induction false} EscapedIsBody(s: string)
    ensures IsBody(EscapeText(s, true))
    decreases |s|
  {
    hide IsBody;
    hide IsUnit;
    hide EscapeChar;
    if s == "" {
      EmptyIsBody();
    } else {
      EscapedIsUnit(s[0]);
      EscapedIsBody(s[1..]);
      UnitThenBody(EscapeChar(s[0], true), EscapeText(s[1..], true));
    }
  }

  lemma EmptyIsBody()
    ensures IsBody("")
  {
  }

  lemma TypeDerived(v: Value, ty: TypeName)
    requires HasType(v, ty)
    ensures Derives(TypeExpr(ty), if v.VStr? then QuoteText(v.s, true) else Dumps(v))
  {
    match ty
    case StringType =>
      EscapedIsBody(v.s);
      StringDerived(EscapeText(v.s, true));
    case IntegerType =>
      var n: nat := if v.i < 0 then -v.i else v.i;
      IntegerDerived(v.i < 0, Digits(n));
      assert "" + Digits(n) == Digits(n);
    case BooleanType =>
      var options := [Lit("true"), Lit("false")];
      assert TypeExpr(BooleanType).options == options;
      assert Derives(options[if v.b then 0 else 1], Dumps(v));
    case NullType =>
  }

  /** Every value the validator accepts for a property has a text in the grammar. */
  lemma ValueDerived(v: Value, r: Rule)
    requires RuleOk(r) && IsScalar(v) && Matches(v, r)
    ensures Derives(ValueExpr(r), ValueText(v, r))
  {
    if r.enum.Some? {
      EnumIsScalar(r);
      EnumIsExact(v, r);
      var options := EnumExpr(r.enum.value).options;
      var k :| 0 <= k < |r.enum.value| && r.enum.value[k] == v;
      assert Derives(options[k], Dumps(v));
    } else {
      var options := ValueExpr(r).options;
      var k :| 0 <= k < |r.types| && HasType(v, r.types[k]);
      TypeDerived(v, r.types[k]);
      assert Derives(options[k], ValueText(v, r));
    }
  }

  lemma ReadValueText(v: Value, r: Rule, rest: string)
    requires IsScalar(v) && Delimited(rest)
    ensures ReadsAs(ValueText(v, r), rest, v, true)
  {
    hide ReadsAs;
    if r.enum.None? && v.VStr? { ReadQuotedValue(v.s, true, rest); } else { ReadDumps(v, rest); }
  }

  // ----- members -----

  lemma NoSpaceAhead(s: string)
    requires s != "" && !IsSpace(s[0])
    ensures SkipSpace(s) == s
  {
  }

  function MemberText(name: string, w1: string, w2: string, value: string, tail: string): string {
    Dumps(VStr(name)) + (w1 + (":" + (w2 + (value + tail))))
  }

  lemma ReadMember(name: string, w1: string, w2: string, value: string, tail: string, v: Value, paired: bool)
    requires AllSpace(w1) && AllSpace(w2) && ReadsAs(value, tail, v, paired)
    ensures var t := MemberText(name, w1, w2, value, tail);
            && t != "" && t[0] == '"'
            && ReadMembers(t) == ReadMoreMembers(Member(name, v), paired, SkipSpace(tail))
  {
    hide ReadText;
    hide ReadValue;
    hide ReadMoreMembers;
    hide SkipSpace;
    hide AllSpace;
    var afterColon := w2 + (value + tail);
    var afterName := w1 + (":" + afterColon);
    ReadQuoted(name, false, afterName);
    assert MemberText(name, w1, w2, value, tail)[1..] == EscapeText(name, false) + ("\"" + afterName);
    SkipSpaces(w1, ":" + afterColon);
    NoSpaceAhead(":" + afterColon);
    assert (":" + afterColon)[1..] == afterColon;
    SkipSpaces(w2, value + tail);
    NoSpaceAhead(value + tail);
  }

  lemma MemberInFront(name: string, w1: string, w2: string, value: string, tail: string)
    requires AllSpace(w1) && AllSpace(w2)
    ensures Paired(MemberText(name, w1, w2, value, tail)) <==> Paired(value + tail)
  {
    hide Paired;
    hide Dumps;
    var x2 := w2 + (value + tail);
    var x1 := w1 + (":" + x2);
    DumpsInFront(VStr(name), x1);
    PlainInFront(w1, ":" + x2);
    PlainInFront(":", x2);
    PlainInFront(w2, value + tail);
  }

  lemma CutMember(r: Rule, after: seq<Expr>, t: string) returns (w1: string, w2: string, value: string, tail: string)
    requires RuleOk(r) && DerivesAll(MemberParts(r) + after, t)
    ensures t == MemberText(r.name, w1, w2, value, tail) && AllSpace(w1) && AllSpace(w2)
    ensures Derives(ValueExpr(r), value) && DerivesAll(after, tail)
  {
    hide Derives;
    hide DerivesAll;
    var last := [ValueExpr(r)] + after;
    var fourth := [WS] + last;
    var third := [Lit(":")] + fourth;
    var second := [WS] + third;
    assert MemberParts(r) + after == [Lit(Dumps(VStr(r.name)))] + second;
    var t2 := CutLiteral(Dumps(VStr(r.name)), second, t);
    var t3;
    w1, t3 := CutSpace(third, t2);
    var t4 := CutLiteral(":", fourth, t3);
    var t5;
    w2, t5 := CutSpace(last, t4);
    var k := CutFirst(ValueExpr(r), after, t5);
    value, tail := t5[..k], t5[k..];
    assert t5 == value + tail;
  }

  const CLOSING := [Lit("}"), WS]

  /** What follows the first member. */
  function AfterFirst(rules: seq<Rule>): seq<Expr>
    requires rules != [] && forall k :: 0 <= k < |rules| ==> RuleOk(rules[k])
  {
    if |rules| == 1 then CLOSING else [Lit(",")] + ([WS] + (JoinMembers(MembersOf(rules[1..])) + CLOSING))
  }

  lemma JoinUnfolds(rules: seq<Rule>)
    requires rules != [] && forall k :: 0 <= k < |rules| ==> RuleOk(rules[k])
    ensures JoinMembers(MembersOf(rules)) + CLOSING == MemberParts(rules[0]) + AfterFirst(rules)
  {
    hide RuleOk;
    hide MemberParts;
    if |rules| > 1 {
      var first, more := MemberParts(rules[0]), JoinMembers(MembersOf(rules[1..]));
      assert MembersOf(rules)[1..] == MembersOf(rules[1..]);
      assert [Lit(","), WS] == [Lit(",")] + [WS];
      assert (first + ([Lit(","), WS] + more)) + CLOSING == first + ([Lit(",")] + ([WS] + (more + CLOSING)));
    }
  }

  /** Members in the order of the rules, each of a value the validator accepts. */
  predicate Conforms(members: seq<Member>, rules: seq<Rule>) {
    && |members| == |rules|
    && forall k :: 0 <= k < |rules| ==>
         members[k].key == rules[k].name && IsScalar(members[k].value) && Matches(members[k].value, rules[k])
  }

  /** Derived members read as conforming ones. */
  lemma {:induction false} MembersForm(rules: seq<Rule>, t: string) returns (members: seq<Member>, paired: bool, rest: string)
    requires rules != [] && forall k :: 0 <= k < |rules| ==> RuleOk(rules[k])
    requires DerivesAll(JoinMembers(MembersOf(rules)) + CLOSING, t)
    ensures t != "" && t[0] == '"' && ReadMembers(t) == MembersRead(members, paired, rest)
    ensures Conforms(members, rules) && AllSpace(rest) && (paired <==> Paired(t))
    decreases |rules|
  {
    hide Paired;
    hide Derives;
    hide DerivesAll;
    hide ReadMembers;
    hide ReadsAs;
    hide SkipSpace;
    hide ValueExpr;
    hide MemberText;
    JoinUnfolds(rules);
    var w1, w2, value, tail := CutMember(rules[0], AfterFirst(rules), t);
    if |rules| == 1 {
      rest := CutClosing(tail);
      var v;
      v, paired := ValueForm(rules[0], value, tail);
      ReadMember(rules[0].name, w1, w2, value, tail, v, paired);
      members := [Member(rules[0].name, v)];
      assert tail[1..] == rest;
      MemberInFront(rules[0].name, w1, w2, value, tail);
      SpaceIsPaired("}", rest);
    } else {
      var w, more := CutComma(JoinMembers(MembersOf(rules[1..])) + CLOSING, tail);
      var v, ms, p, p0;
      v, p0 := ValueForm(rules[0], value, tail);
      ReadMember(rules[0].name, w1, w2, value, tail, v, p0);
      ms, p, rest := MembersForm(rules[1..], more);
      members, paired := [Member(rules[0].name, v)] + ms, p0 && p;
      assert tail[1..] == w + more;
      SkipSpaces(w, more);
      NoSpaceAhead(more);
      MemberInFront(rules[0].name, w1, w2, value, tail);
      PlainInFront(",", w + more);
      PlainInFront(w, more);
    }
  }

  lemma SpaceIsPaired(first: string, w: string)
    requires NoBackslash(first) && AllSpace(w)
    ensures Paired(first + w)
  {
    hide Paired;
    PlainInFront(first, w);
    PlainInFront(w, "");
    assert w + "" == w;
    NothingUnpaired();
  }

  lemma CutClosing(t: string) returns (rest: string)
    requires DerivesAll(CLOSING, t)
    ensures t == "}" + rest && AllSpace(rest) && Delimited(t) && SkipSpace(t) == t
  {
    hide Derives;
    hide DerivesAll;
    assert CLOSING == [Lit("}")] + [WS];
    rest := CutLiteral("}", [WS], t);
    Single(WS, rest);
    SpaceRun(rest);
    NoSpaceAhead(t);
  }

  lemma CutComma(after: seq<Expr>, t: string) returns (w: string, more: string)
    requires DerivesAll([Lit(",")] + ([WS] + after), t)
    ensures t == "," + (w + more) && AllSpace(w) && DerivesAll(after, more) && Delimited(t) && SkipSpace(t) == t
  {
    hide Derives;
    hide DerivesAll;
    var t1 := CutLiteral(",", [WS] + after, t);
    w, more := CutSpace(after, t1);
    NoSpaceAhead(t);
  }

  // ----- the validator's view -----

  lemma {:induction false} GetAt(members: seq<Member>, k: nat)
    requires k < |members| && Distinct(Keys(members))
    ensures Get(members, members[k].key) == Some(members[k].value)
    decreases |members|
  {
    assert Keys(members)[0] == members[0].key && Keys(members)[k] == members[k].key;
    if k > 0 {
      assert Keys(members[1..]) == Keys(members)[1..];
      GetAt(members[1..], k - 1);
    }
  }

  lemma {:induction false} NoViolations(members: seq<Member>, rules: seq<Rule>)
    ensures Violations(members, rules) == [] <==>
              forall k :: 0 <= k < |rules| ==> Get(members, rules[k].name).Some? && Matches(Get(members, rules[k].name).value, rules[k])
    decreases |rules|
  {
    if rules != [] {
      var init := rules[..|rules| - 1];
      NoViolations(members, init);
      assert forall k :: 0 <= k < |init| ==> init[k] == rules[k];
    }
  }

  lemma MatchedIsScalar(v: Value, r: Rule)
    requires Matches(v, r)
    ensures IsScalar(v)
  {
  }

  /** The validator accepts exactly the objects whose members conform. */
  lemma AcceptedConforms(v: Value, c: Contract)
    requires ContractOk(c)
    ensures Validate(v, c) == [] <==> v.VDict? && Conforms(v.members, c.rules)
    ensures Validate(v, c) == [] ==> UniqueKeys(v)
  {
    hide Matches;
    hide RuleOk;
    if v.VDict? {
      var ms, rules := v.members, c.rules;
      NoViolations(ms, rules);
      if Keys(ms) == Names(rules) {
        forall k | 0 <= k < |rules|
          ensures ms[k].key == rules[k].name && Get(ms, rules[k].name) == Some(ms[k].value)
        {
          assert Keys(ms)[k] == Names(rules)[k];
          GetAt(ms, k);
        }
        forall k | 0 <= k < |rules| && Matches(ms[k].value, rules[k])
          ensures IsScalar(ms[k].value)
        {
          MatchedIsScalar(ms[k].value, rules[k]);
        }
      }
      if Conforms(ms, rules) { assert Keys(ms) == Names(rules); }
    }
  }

  // ----- writing an accepted value -----

  function WriteMembers(members: seq<Member>, rules: seq<Rule>): string
    requires Conforms(members, rules)
    decreases |rules|
  {
    if rules == [] then ""
    else
      MemberText(rules[0].name, "", "", ValueText(members[0].value, rules[0]),
                 if |rules| == 1 then "}" else "," + WriteMembers(members[1..], rules[1..]))
  }

  function Write(v: Value, c: Contract): string
    requires v.VDict? && Conforms(v.members, c.rules)
  {
    "{" + WriteMembers(v.members, c.rules)
  }

  lemma PutMember(r: Rule, value: string, after: seq<Expr>, tail: string)
    requires RuleOk(r) && Derives(ValueExpr(r), value) && DerivesAll(after, tail)
    ensures DerivesAll(MemberParts(r) + after, MemberText(r.name, "", "", value, tail))
  {
    hide Derives;
    hide DerivesAll;
    var name := Dumps(VStr(r.name));
    var last := [ValueExpr(r)] + after;
    PutFirst(ValueExpr(r), after, value, tail);
    SpaceRun("");
    PutFirst(WS, last, "", value + tail);
    LiteralItself(":");
    PutFirst(Lit(":"), [WS] + last, ":", "" + (value + tail));
    PutFirst(WS, [Lit(":")] + ([WS] + last), "", ":" + ("" + (value + tail)));
    LiteralItself(name);
    PutFirst(Lit(name), [WS] + ([Lit(":")] + ([WS] + last)), name, "" + (":" + ("" + (value + tail))));
    assert MemberParts(r) + after == [Lit(name)] + ([WS] + ([Lit(":")] + ([WS] + last)));
  }

  lemma PutComma(after: seq<Expr>, tail: string)
    requires DerivesAll(after, tail)
    ensures DerivesAll([Lit(",")] + ([WS] + after), "," + tail)
  {
    hide Derives;
    hide DerivesAll;
    SpaceRun("");
    PutFirst(WS, after, "", tail);
    assert "" + tail == tail;
    LiteralItself(",");
    PutFirst(Lit(","), [WS] + after, ",", tail);
  }

  lemma PutClosing()
    ensures DerivesAll(CLOSING, "}")
  {
    hide Derives;
    hide DerivesAll;
    SpaceRun("");
    Single(WS, "");
    LiteralItself("}");
    PutFirst(Lit("}"), [WS], "}", "");
    assert "}" + "" == "}" && CLOSING == [Lit("}")] + [WS];
  }

  /** What is written is derived from the grammar. */
  lemma {:induction false} WrittenIsDerived(members: seq<Member>, rules: seq<Rule>)
    requires rules != [] && Conforms(members, rules) && forall k :: 0 <= k < |rules| ==> RuleOk(rules[k])
    ensures DerivesAll(JoinMembers(MembersOf(rules)) + CLOSING, WriteMembers(members, rules))
    decreases |rules|
  {
    hide Derives;
    hide DerivesAll;
    hide RuleOk;
    hide Matches;
    hide MemberText;
    JoinUnfolds(rules);
    if |rules| == 1 {
      PutClosing();
      ValueDerived(members[0].value, rules[0]);
      PutMember(rules[0], ValueText(members[0].value, rules[0]), CLOSING, "}");
    } else {
      WrittenIsDerived(members[1..], rules[1..]);
      var more := JoinMembers(MembersOf(rules[1..])) + CLOSING;
      PutComma(more, WriteMembers(members[1..], rules[1..]));
      ValueDerived(members[0].value, rules[0]);
      PutMember(rules[0], ValueText(members[0].value, rules[0]), AfterFirst(rules), "," + WriteMembers(members[1..], rules[1..]));
    }
  }

  /** What is written reads back. */
  lemma {:induction false} WrittenReadsBack(members: seq<Member>, rules: seq<Rule>)
    requires rules != [] && Conforms(members, rules)
    ensures var t := WriteMembers(members, rules);
            t != "" && t[0] == '"' && ReadMembers(t) == MembersRead(members, true, "")
    decreases |rules|
  {
    hide ReadMembers;
    hide SkipSpace;
    hide ReadsAs;
    hide Matches;
    hide MemberText;
    var m := members[0];
    var value := ValueText(m.value, rules[0]);
    if |rules| == 1 {
      ReadValueText(m.value, rules[0], "}");
      ReadMember(m.key, "", "", value, "}", m.value, true);
      NoSpaceAhead("}");
      assert members == [m];
    } else {
      var more := WriteMembers(members[1..], rules[1..]);
      var tail := "," + more;
      WrittenReadsBack(members[1..], rules[1..]);
      ReadValueText(m.value, rules[0], tail);
      ReadMember(m.key, "", "", value, tail, m.value, true);
      NoSpaceAhead(tail);
      assert tail[1..] == more;
      NoSpaceAhead(more);
      assert members == [m] + members[1..];
    }
  }

  // ----- agreement -----

  lemma ReadObject(w: string, more: string, members: seq<Member>, paired: bool, rest: string)
    requires AllSpace(w) && more != "" && more[0] == '"' && ReadMembers(more) == MembersRead(members, paired, rest) && AllSpace(rest)
    requires UniqueKeys(VDict(members))
    ensures Loads("{" + (w + more)) == if paired then Loaded(VDict(members)) else UnpairedSurrogate
  {
    hide ReadMembers;
    hide SkipSpace;
    hide UniqueKeys;
    var t := "{" + (w + more);
    NoSpaceAhead(t);
    assert t[1..] == w + more;
    SkipSpaces(w, more);
    NoSpaceAhead(more);
    SkipSpaces(rest, "");
    assert rest + "" == rest;
    NothingToSkip();
  }

  lemma NothingToSkip()
    ensures SkipSpace("") == ""
  {
  }

  /** Soundness: a text derived from the grammar is one JSON object without repeated keys. It
      loads exactly when none of its escapes is a high surrogate without a low one right after
      it or a low one without a high one right before it, and then the validator accepts its
      value. */
  lemma GrammarIsSound(c: Contract, t: string)
    requires ContractOk(c) && Derives(Grammar(c), t)
    ensures if Paired(t) then Loads(t).Loaded? && Validate(Loads(t).value, c) == [] else Loads(t) == UnpairedSurrogate
  {
    hide Paired;
    hide DerivesAll;
    hide Validate;
    hide RuleOk;
    var inner := JoinMembers(MembersOf(c.rules)) + CLOSING;
    assert Grammar(c).parts == [Lit("{")] + ([WS] + inner);
    var t1 := CutLiteral("{", [WS] + inner, t);
    var w, more := CutSpace(inner, t1);
    var members, paired, rest := MembersForm(c.rules, more);
    AcceptedConforms(VDict(members), c);
    ReadObject(w, more, members, paired, rest);
    PlainInFront("{", w + more);
    PlainInFront(w, more);
  }

  const LONE_HIGH := "\\ud800"

  lemma OneMemberDerived(r: Rule, value: string)
    requires RuleOk(r) && ContractOk(Contract([r])) && Derives(ValueExpr(r), value)
    ensures Derives(Grammar(Contract([r])), "{" + MemberText(r.name, "", "", value, "}"))
  {
    hide Derives;
    hide DerivesAll;
    hide RuleOk;
    hide ValueExpr;
    PutClosing();
    PutMember(r, value, CLOSING, "}");
    JoinUnfolds([r]);
    var inner, more := JoinMembers(MembersOf([r])) + CLOSING, MemberText(r.name, "", "", value, "}");
    SpaceRun("");
    PutFirst(WS, inner, "", more);
    assert "" + more == more;
    LiteralItself("{");
    PutFirst(Lit("{"), [WS] + inner, "{", more);
    assert Grammar(Contract([r])).parts == [Lit("{")] + ([WS] + inner);
    DerivesCat(Grammar(Contract([r])).parts, "{" + more);
  }

  /** Such texts are derived: a contract of one free string has one. */
  lemma UnpairedIsDerived(name: string)
    requires name != ""
    ensures var c := Contract([Rule(name, [StringType], None)]);
            && ContractOk(c)
            && var t := "{" + MemberText(name, "", "", "\"" + LONE_HIGH + "\"", "}");
               Derives(Grammar(c), t) && !Paired(t) && Loads(t) == UnpairedSurrogate
  {
    var r := Rule(name, [StringType], None);
    var value := "\"" + LONE_HIGH + "\"";
    LoneHigh();
    StringDerived(LONE_HIGH);
    assert ValueExpr(r).options[0] == TypeExpr(StringType) && Derives(ValueExpr(r), value);
    hide Derives;
    hide Paired;
    hide MemberText;
    hide Loads;
    OneMemberDerived(r, value);
    PlainInFront("{", MemberText(name, "", "", value, "}"));
    MemberInFront(name, "", "", value, "}");
    StringInFront(LONE_HIGH, "}");
    GrammarIsSound(Contract([r]), "{" + MemberText(name, "", "", value, "}"));
  }

  lemma LoneHigh()
    ensures IsBody(LONE_HIGH) && !Paired(LONE_HIGH)
  {
    assert LONE_HIGH[..6] == LONE_HIGH && LONE_HIGH[6..] == "" && IsUnit(LONE_HIGH);
    EscapeInFront(LONE_HIGH);
    assert HexValue('d') == 13 && HexValue('8') == 8 && HexValue('0') == 0;
  }

  /** Completeness: every value the validator accepts is the value of a derived text. */
  lemma GrammarIsComplete(c: Contract, v: Value)
    requires ContractOk(c) && Validate(v, c) == []
    ensures v.VDict? && Conforms(v.members, c.rules)
    ensures Derives(Grammar(c), Write(v, c)) && Loads(Write(v, c)) == Loaded(v)
  {
    hide DerivesAll;
    hide Validate;
    hide RuleOk;
    AcceptedConforms(v, c);
    var inner := JoinMembers(MembersOf(c.rules)) + CLOSING;
    var more := WriteMembers(v.members, c.rules);
    WrittenIsDerived(v.members, c.rules);
    SpaceRun("");
    PutFirst(WS, inner, "", more);
    LiteralItself("{");
    PutFirst(Lit("{"), [WS] + inner, "{", "" + more);
    assert "" + more == more;
    assert Grammar(c).parts == [Lit("{")] + ([WS] + inner);
    WrittenReadsBack(v.members, c.rules);
    ReadObject("", more, v.members, true, "");
  }

  /** Compiler correctness: for every schema the parser accepts, the values of the grammar's
      texts are exactly the values the validator accepts. */
  lemma GrammarAgreesWithValidator(schema: Value, v: Value)
    requires UniqueKeys(schema) && ParsedContract(schema).Ok?
    ensures ContractOk(ParsedContract(schema).value)
    ensures var c := ParsedContract(schema).value;
            Validate(v, c) == [] <==> exists t :: Derives(Grammar(c), t) && Loads(t) == Loaded(v)
  {
    ParsedIsOk(schema);
    var c := ParsedContract(schema).value;
    if Validate(v, c) == [] {
      GrammarIsComplete(c, v);
    }
    if t :| Derives(Grammar(c), t) && Loads(t) == Loaded(v) {
      GrammarIsSound(c, t);
    }
  }

  // ----- the grammar as text -----

  predicate ControlFree(s: string) { forall k :: 0 <= k < |s| ==> !IsControl(s[k]) }

  lemma {:induction false} EscapedIsControlFree(s: string)
    ensures ControlFree(EscapeText(s, false))
    decreases |s|
  {
    if s != "" {
      EscapedIsControlFree(s[1..]);
      assert ControlFree(EscapeChar(s[0], false));
    }
  }

  lemma DumpsIsControlFree(v: Value)
    requires IsScalar(v)
    ensures ControlFree(Dumps(v))
  {
    match v
    case VStr(s) => EscapedIsControlFree(s);
    case VInt(i) => assert AllDigits(Digits(if i < 0 then -i else i));
    case _ =>
  }

  lemma {:induction false} UnquoteEscaped(s: string)
    requires ControlFree(s)
    ensures ReadLiteral(EscapeText(s, false) + "\"") == Some(s)
    decreases |s|
  {
    if s == "" {
      assert "" + "\"" == "\"";
    } else {
      UnquoteEscaped(s[1..]);
      var e, rest := EscapeChar(s[0], false), EscapeText(s[1..], false) + "\"";
      var t := EscapeText(s, false) + "\"";
      assert !IsControl(s[0]);
      assert t == e + rest && t[|e|..] == rest && rest != "";
      assert [s[0]] + s[1..] == s;
    }
  }

  /** Quoting a literal for the grammar and reading it back gives the literal, for every key
      and every enum value: serialized JSON holds no control character, so the two escapes
      `\"` and `\\` are the only ones. */
  lemma TerminalRoundTrip(v: Value)
    requires IsScalar(v)
    ensures Terminal(Dumps(v))[0] == '"' && ReadLiteral(Terminal(Dumps(v))[1..]) == Some(Dumps(v))
  {
    DumpsIsControlFree(v);
    UnquoteEscaped(Dumps(v));
    assert Terminal(Dumps(v))[1..] == EscapeText(Dumps(v), false) + "\"";
  }

  /** `value-<index>-<name>`: the names of the property rules, whatever the property names
      are reduced to. */
  function RuleName(index: nat, suffix: string): string { "value-" + (Digits(index) + ("-" + suffix)) }

  /** Two properties never share a rule, so inlining the references is what they mean. */
  lemma RuleNamesDistinct(i: nat, s: string, j: nat, s': string)
    requires RuleName(i, s) == RuleName(j, s')
    ensures i == j && s == s'
  {
    hide Digits;
    var a, b := Digits(i) + ("-" + s), Digits(j) + ("-" + s');
    assert RuleName(i, s)[6..] == a && RuleName(j, s')[6..] == b;
    CutAtDash(Digits(i), s, Digits(j), s');
  }

  /** Digits end at the first dash. */
  lemma CutAtDash(x: string, s: string, y: string, s': string)
    requires AllDigits(x) && AllDigits(y) && x + ("-" + s) == y + ("-" + s')
    ensures x == y && s == s'
  {
    var a := x + ("-" + s);
    assert a[|x|] == '-' && a[|y|] == '-';
    assert a[..|x|] == x && a[..|y|] == y;
    if |x| == |y| {
      assert a[|x| + 1..] == s && a[|y| + 1..] == s';
    }
  }
}
