/** What the grammar's terminal rules derive, in plain terms, and how the strict loader reads
    it: runs of white space and digits, integers, and the inside of string literals with
    their escapes. */
module GrammarForms {
  import opened Json
  import opened OutputContract
  import opened Surrogates

  // ----- derivations taken apart -----

  lemma CutFirst(p: Expr, parts: seq<Expr>, t: string) returns (k: nat)
    requires DerivesAll([p] + parts, t)
    ensures k <= |t| && Derives(p, t[..k]) && DerivesAll(parts, t[k..])
  {
    assert ([p] + parts)[1..] == parts;
    k :| 0 <= k <= |t| && Derives(p, t[..k]) && DerivesAll(parts, t[k..]);
  }

  lemma PutFirst(p: Expr, parts: seq<Expr>, u: string, t: string)
    requires Derives(p, u) && DerivesAll(parts, t)
    ensures DerivesAll([p] + parts, u + t)
  {
    assert ([p] + parts)[1..] == parts;
    assert (u + t)[..|u|] == u && (u + t)[|u|..] == t;
  }

  /** A literal at the front of a derivation stands at the front of the text. */
  lemma CutLiteral(text: string, parts: seq<Expr>, t: string) returns (rest: string)
    requires DerivesAll([Lit(text)] + parts, t)
    ensures t == text + rest && DerivesAll(parts, rest)
  {
    var k := CutFirst(Lit(text), parts, t);
    rest := t[k..];
  }

  lemma CutSpace(parts: seq<Expr>, t: string) returns (w: string, rest: string)
    requires DerivesAll([WS] + parts, t)
    ensures t == w + rest && AllSpace(w) && DerivesAll(parts, rest)
  {
    var k := CutFirst(WS, parts, t);
    w, rest := t[..k], t[k..];
    SpaceRun(w);
  }

  lemma {:induction false} SpaceRun(t: string)
    ensures Derives(WS, t) <==> AllSpace(t)
    decreases |t|
  {
    if t != "" {
      SpaceRun(t[1..]);
      if AllSpace(t) {
        assert Derives(Class(AnySpace), t[..1]) && Derives(WS, t[1..]);
      }
      if Derives(WS, t) {
        var k :| 0 < k <= |t| && Derives(Class(AnySpace), t[..k]) && Derives(WS, t[k..]);
        assert k == 1;
        assert forall j :: 1 <= j < |t| ==> t[j] == t[1..][j - 1];
      }
    }
  }

  lemma {:induction false} DigitsRun(t: string)
    ensures Derives(Star(Class(AnyDigit)), t) <==> AllDigits(t)
    decreases |t|
  {
    if t != "" {
      DigitsRun(t[1..]);
      if AllDigits(t) {
        assert Derives(Class(AnyDigit), t[..1]) && Derives(Star(Class(AnyDigit)), t[1..]);
      }
      if Derives(Star(Class(AnyDigit)), t) {
        var k :| 0 < k <= |t| && Derives(Class(AnyDigit), t[..k]) && Derives(Star(Class(AnyDigit)), t[k..]);
        assert k == 1;
        assert forall j :: 1 <= j < |t| ==> t[j] == t[1..][j - 1];
      }
    }
  }

  // ----- integers -----

  const NONZERO := Cat([Class(NonZeroDigit), Star(Class(AnyDigit))])
  const NATURAL := Alt([Lit("0"), NONZERO])

  lemma Single(p: Expr, t: string)
    ensures DerivesAll([p], t) <==> Derives(p, t)
  {
    assert [p] == [p] + [];
    if DerivesAll([p], t) {
      var k := CutFirst(p, [], t);
      assert t[..k] == t;
    }
    if Derives(p, t) {
      PutFirst(p, [], t, "");
      assert t + "" == t;
    }
  }

  lemma NonZeroForm(d: string)
    requires Derives(NONZERO, d)
    ensures IsNatural(d) && d[0] != '0'
  {
    assert NONZERO.parts == [Class(NonZeroDigit)] + [Star(Class(AnyDigit))];
    var k := CutFirst(Class(NonZeroDigit), [Star(Class(AnyDigit))], d);
    Single(Star(Class(AnyDigit)), d[1..]);
    DigitsRun(d[1..]);
    assert forall i :: 1 <= i < |d| ==> d[i] == d[1..][i - 1];
  }

  lemma NonZeroDerived(d: string)
    requires IsNatural(d) && d[0] != '0'
    ensures Derives(NONZERO, d)
  {
    DigitsRun(d[1..]);
    Single(Star(Class(AnyDigit)), d[1..]);
    PutFirst(Class(NonZeroDigit), [Star(Class(AnyDigit))], d[..1], d[1..]);
    assert d[..1] + d[1..] == d;
    assert NONZERO.parts == [Class(NonZeroDigit)] + [Star(Class(AnyDigit))];
  }

  lemma NaturalRun(d: string)
    ensures Derives(NATURAL, d) <==> IsNatural(d)
  {
    assert NATURAL.options == [Lit("0"), NONZERO];
    if Derives(NATURAL, d) {
      var k :| 0 <= k < 2 && Derives(NATURAL.options[k], d);
      if k == 1 { NonZeroForm(d); }
    }
    if IsNatural(d) {
      if d[0] == '0' {
        assert d == "0";
        assert Derives(NATURAL.options[0], d);
      } else {
        NonZeroDerived(d);
        assert Derives(NATURAL.options[1], d);
      }
    }
  }

  lemma IntegerForm(t: string) returns (neg: bool, d: string)
    requires Derives(JSON_INTEGER, t)
    ensures IsNatural(d) && t == (if neg then "-" else "") + d
  {
    assert JSON_INTEGER.parts == [Maybe(Lit("-"))] + [NATURAL];
    var k := CutFirst(Maybe(Lit("-")), [NATURAL], t);
    d := t[k..];
    Single(NATURAL, d);
    NaturalRun(d);
    neg := k > 0;
  }

  lemma IntegerDerived(neg: bool, d: string)
    requires IsNatural(d)
    ensures Derives(JSON_INTEGER, (if neg then "-" else "") + d)
  {
    NaturalRun(d);
    Single(NATURAL, d);
    PutFirst(Maybe(Lit("-")), [NATURAL], if neg then "-" else "", d);
    assert JSON_INTEGER.parts == [Maybe(Lit("-"))] + [NATURAL];
  }

  // ----- strings -----

  /** What one json-char derives, by its width. */
  predicate IsUnit(t: string) {
    || (|t| == 1 && InClass(t[0], PlainChar))
    || (|t| == 2 && t[0] == '\\' && IsSimpleEscape(t[1]))
    || (|t| == 6 && IsUnicodeEscape(t))
  }

  predicate AllHex(t: string) { forall k :: 0 <= k < |t| ==> IsHex(t[k]) }

  lemma {:induction false} HexRun(parts: seq<Expr>, t: string)
    requires forall k :: 0 <= k < |parts| ==> parts[k] == Class(AnyHex)
    ensures DerivesAll(parts, t) <==> |t| == |parts| && AllHex(t)
    decreases |parts|
  {
    if parts != [] {
      assert parts == [parts[0]] + parts[1..];
      if DerivesAll(parts, t) {
        var k := CutFirst(parts[0], parts[1..], t);
        HexRun(parts[1..], t[1..]);
        assert forall i :: 1 <= i < |t| ==> t[i] == t[1..][i - 1];
      }
      if |t| == |parts| && AllHex(t) {
        HexRun(parts[1..], t[1..]);
        PutFirst(parts[0], parts[1..], t[..1], t[1..]);
        assert t[..1] + t[1..] == t;
      }
    }
  }

  lemma DerivesCat(parts: seq<Expr>, t: string)
    ensures Derives(Cat(parts), t) <==> DerivesAll(parts, t)
  {
  }

  lemma LiteralItself(text: string)
    ensures Derives(Lit(text), text)
  {
  }

  lemma UnicodeForm(t: string)
    ensures Derives(UNICODE, t) <==> |t| == 5 && t[0] == 'u' && AllHex(t[1..])
  {
    assert UNICODE.parts == [Lit("u")] + FOUR_HEX;
    hide Derives;
    hide DerivesAll;
    DerivesCat(UNICODE.parts, t);
    LiteralItself("u");
    if Derives(UNICODE, t) {
      var rest := CutLiteral("u", FOUR_HEX, t);
      assert rest == t[1..];
      HexRun(FOUR_HEX, rest);
    }
    if |t| == 5 && t[0] == 'u' && AllHex(t[1..]) {
      HexRun(FOUR_HEX, t[1..]);
      PutFirst(Lit("u"), FOUR_HEX, "u", t[1..]);
      assert "u" + t[1..] == t;
    }
  }

  const ESCAPED := Alt([Class(EscapeLetter), UNICODE])

  lemma EscapedForm(t: string)
    ensures Derives(ESCAPED, t) <==> (|t| == 1 && IsSimpleEscape(t[0])) || (|t| == 5 && t[0] == 'u' && AllHex(t[1..]))
  {
    UnicodeForm(t);
    var options := [Class(EscapeLetter), UNICODE];
    assert ESCAPED.options == options;
    if Derives(ESCAPED, t) {
      var k :| 0 <= k < |options| && Derives(options[k], t);
      assert k == 0 || k == 1;
    }
    assert Derives(options[0], t) || Derives(options[1], t) ==> Derives(ESCAPED, t);
  }

  lemma EscapeForm(t: string)
    ensures Derives(ESCAPE, t) <==> IsUnit(t) && |t| > 1
  {
    assert ESCAPE.parts == [Lit("\\")] + [ESCAPED];
    if Derives(ESCAPE, t) {
      var rest := CutLiteral("\\", [ESCAPED], t);
      assert rest == t[1..];
      Single(ESCAPED, rest);
      EscapedForm(rest);
      assert |t| == 6 ==> AllHex(t[1..][1..]) && t[2] == t[1..][1..][0] && t[3] == t[1..][1..][1] && t[4] == t[1..][1..][2] && t[5] == t[1..][1..][3];
    }
    if IsUnit(t) && |t| > 1 {
      EscapedForm(t[1..]);
      Single(ESCAPED, t[1..]);
      PutFirst(Lit("\\"), [ESCAPED], "\\", t[1..]);
      assert "\\" + t[1..] == t;
    }
  }

  lemma UnitForm(t: string)
    ensures Derives(JSON_CHAR, t) <==> IsUnit(t)
  {
    EscapeForm(t);
    var options := [Class(PlainChar), ESCAPE];
    assert JSON_CHAR.options == options;
    if Derives(JSON_CHAR, t) {
      var k :| 0 <= k < |options| && Derives(options[k], t);
      assert k == 0 || k == 1;
    }
    assert Derives(options[0], t) || Derives(options[1], t) ==> Derives(JSON_CHAR, t);
  }

  /** The inside of a string literal the grammar can write. */
  predicate IsBody(t: string)
    decreases |t|
  {
    || t == ""
    || (IsUnit(t[..1]) && IsBody(t[1..]))
    || (|t| >= 2 && IsUnit(t[..2]) && IsBody(t[2..]))
    || (|t| >= 6 && IsUnit(t[..6]) && IsBody(t[6..]))
  }

  lemma {:induction false} BodyForm(t: string)
    ensures Derives(Star(JSON_CHAR), t) <==> IsBody(t)
    decreases |t|
  {
    if t != "" {
      forall k | 0 < k <= |t|
        ensures Derives(JSON_CHAR, t[..k]) && Derives(Star(JSON_CHAR), t[k..]) <==> IsUnit(t[..k]) && IsBody(t[k..])
      {
        UnitForm(t[..k]);
        BodyForm(t[k..]);
      }
    }
  }

  /** A \u escape at the front of a body is one of its units. */
  lemma EscapeIsUnit(b: string, q: string)
    requires IsBody(b) && q != "" && q[0] == '"' && IsUnicodeEscape(b + q)
    ensures |b| >= 6 && IsUnicodeEscape(b) && IsBody(b[6..])
  {
    var t := b + q;
    assert b != "" && t[0] == b[0];
    assert !IsUnit(b[..1]);
    assert |b| >= 2;
    assert t[1] == b[1] && !IsUnit(b[..2]);
    assert |b| >= 6 && IsUnit(b[..6]);
    assert forall k :: 0 <= k < 6 ==> b[k] == b[..6][k];
  }

  lemma UnitIsPiece(u: string)
    requires IsUnit(u)
    ensures IsPiece(u) && (|u| < 6 ==> !IsSurrogate(u))
  {
  }

  /** Cutting after a body cuts where the body ends. */
  lemma {:induction false} UnitsOfBody(b: string, x: string)
    requires IsBody(b)
    ensures Units(b + x) == Units(b) + Units(x)
    decreases |b|
  {
    hide Units;
    hide IsUnit;
    if b == "" {
      assert b + x == x;
      NoUnits();
    } else {
      var k := if IsUnit(b[..1]) && IsBody(b[1..]) then 1 else if |b| >= 2 && IsUnit(b[..2]) && IsBody(b[2..]) then 2 else 6;
      UnitsOfBody(b[k..], x);
      UnitIsPiece(b[..k]);
      assert b + x == b[..k] + (b[k..] + x) && b == b[..k] + b[k..];
      FirstUnit(b[..k], b[k..] + x);
      FirstUnit(b[..k], b[k..]);
    }
  }

  lemma NoUnits()
    ensures Units("") == []
  {
  }

  /** A string in front: its own escapes must pair up, and so must those of what follows. */
  lemma StringInFront(b: string, x: string)
    requires IsBody(b)
    ensures Paired("\"" + b + "\"" + x) <==> Paired(b) && Paired(x)
  {
    hide Units;
    hide AllPaired;
    var q := "\"" + x;
    assert "\"" + b + "\"" + x == "\"" + (b + q);
    PieceInFront("\"", b + q);
    UnitsOfBody(b, q);
    FirstUnit("\"", x);
    SeparatorSplits(Units(b), "\"", Units(x));
  }

  /** Whatever the grammar writes between quotation marks, the loader reads to its end, and it
      finds all surrogates paired exactly when the text does. */
  lemma {:induction false} ReadBody(b: string, rest: string)
    requires IsBody(b)
    ensures var r := ReadText(b + ("\"" + rest)); r.Text? && r.rest == rest && (r.paired <==> Paired(b))
    decreases |b|, 1
  {
    hide Paired;
    var q := "\"" + rest;
    var t := b + q;
    if b == "" {
      ReadQuote(rest);
      NothingUnpaired();
      assert t == q;
    } else if IsUnit(b[..1]) && IsBody(b[1..]) {
      assert t[0] == b[..1][0];
      assert t[1..] == b[1..] + q;
      ReadBody(b[1..], rest);
      UnitInFront(b, 1);
    } else if |b| >= 2 && IsUnit(b[..2]) && IsBody(b[2..]) {
      assert t[0] == b[..2][0] && t[1] == b[..2][1];
      assert t[2..] == b[2..] + q;
      ReadBody(b[2..], rest);
      UnitInFront(b, 2);
    } else {
      ReadUnicode(b, rest);
    }
  }

  lemma UnitInFront(b: string, k: nat)
    requires k <= |b| && IsUnit(b[..k]) && !IsSurrogate(b[..k])
    ensures Paired(b) <==> Paired(b[k..])
  {
    hide Paired;
    UnitIsPiece(b[..k]);
    assert b == b[..k] + b[k..];
    PieceInFront(b[..k], b[k..]);
  }

  /** A \u escape takes six characters, or twelve with its partner. */
  lemma ReadUnicodeStep(t: string, rest: string)
    requires IsUnicodeEscape(t) && ReadText(t[6..]).Text? && ReadText(t[6..]).rest == rest
    requires IsUnicodeEscape(t[6..]) ==> ReadText(t[12..]).Text? && ReadText(t[12..]).rest == rest
    ensures var r := ReadText(t); var u := CodeUnit(t);
            && r.Text? && r.rest == rest
            && r.paired == (if IsHigh(u) && IsUnicodeEscape(t[6..]) && IsLow(CodeUnit(t[6..])) then ReadText(t[12..]).paired
                            else !IsHigh(u) && !IsLow(u) && ReadText(t[6..]).paired)
  {
    hide CodeUnit;
  }

  lemma FrontEscape(b: string, q: string)
    requires |b| >= 6 && IsUnit(b[..6])
    ensures IsUnicodeEscape(b + q) && (b + q)[6..] == b[6..] + q && CodeUnit(b + q) == CodeUnit(b[..6])
  {
    assert forall k :: 0 <= k < 6 ==> (b + q)[k] == b[..6][k];
  }

  /** What an escape in front of a body does to its pairing. */
  lemma EscapeInFront(b: string)
    requires |b| >= 6 && IsUnit(b[..6]) && IsBody(b[6..])
    ensures var (u, c) := (CodeUnit(b[..6]), b[6..]);
            if IsHigh(u) && IsUnicodeEscape(c) && IsLow(CodeUnit(c)) then Paired(b) <==> Paired(c[6..])
            else if IsHigh(u) || IsLow(u) then !Paired(b)
            else Paired(b) <==> Paired(c)
  {
    hide IsBody;
    var (e, c) := (b[..6], b[6..]);
    assert b == e + c;
    FirstUnit(e, c);
    if IsHigh(CodeUnit(e)) && IsUnicodeEscape(c) && IsLow(CodeUnit(c)) {
      assert c == c[..6] + c[6..] && CodeUnit(c[..6]) == CodeUnit(c);
      FirstUnit(c[..6], c[6..]);
      PairFirst(e, c[..6], Units(c[6..]));
    } else if IsHigh(CodeUnit(e)) || IsLow(CodeUnit(e)) {
      FirstOf(c);
      UnpairedFirst(e, Units(c));
    } else {
      NeutralFirst(e, Units(c));
    }
  }

  /** The first unit of a text is a low surrogate exactly when such an escape stands there. */
  lemma FirstOf(c: string)
    ensures Units(c) != [] && IsLowUnit(Units(c)[0]) <==> IsUnicodeEscape(c) && IsLow(CodeUnit(c))
  {
    if c != "" {
      assert Units(c)[0] == c[..UnitWidth(c)];
      if IsUnicodeEscape(c) { assert CodeUnit(c[..6]) == CodeUnit(c); }
    }
  }

  lemma ReadUnicode(b: string, rest: string)
    requires IsBody(b) && |b| >= 6 && IsUnit(b[..6]) && IsBody(b[6..])
    ensures var r := ReadText(b + ("\"" + rest)); r.Text? && r.rest == rest && (r.paired <==> Paired(b))
    decreases |b|, 0
  {
    hide ReadText;
    hide IsBody;
    hide Paired;
    hide IsHigh;
    hide IsLow;
    hide CodeUnit;
    var q := "\"" + rest;
    var t := b + q;
    FrontEscape(b, q);
    EscapeInFront(b);
    var c := b[6..];
    ReadBody(c, rest);
    if IsUnicodeEscape(c + q) {
      EscapeIsUnit(c, q);
      SameEscape(c, q);
      assert t[12..] == c[6..] + q;
      ReadBody(c[6..], rest);
    } else {
      NoEscapeYet(c, q);
    }
    ReadUnicodeStep(t, rest);
  }

  lemma SameEscape(c: string, q: string)
    requires IsUnicodeEscape(c)
    ensures IsUnicodeEscape(c + q) && CodeUnit(c + q) == CodeUnit(c)
  {
  }

  lemma NoEscapeYet(c: string, q: string)
    requires !IsUnicodeEscape(c + q)
    ensures !IsUnicodeEscape(c)
  {
    if IsUnicodeEscape(c) { SameEscape(c, q); }
  }
}
