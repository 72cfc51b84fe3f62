module Json {
  // JSON text and values: the grammar of RFC 8259 (strings section 7, numbers section 6) as the
  // strict loader reads it (model_worker/strict_json.py), and the serializer used for names and
  // enum values. Characters are Unicode scalar values; a surrogate can only appear through a \u
  // escape.

  datatype Value =
    | VNull
    | VBool(b: bool)
    | VInt(i: int)
    | VFloat(text: string)
    | VStr(s: string)
    | VList(items: seq<Value>)
    | VDict(members: seq<Member>)

  datatype Member = Member(key: string, value: Value)

  function Keys(members: seq<Member>): seq<string> { seq(|members|, k requires 0 <= k < |members| => members[k].key) }

  predicate IsSpace(c: char) { c == ' ' || c == '\t' || c == '\n' || c == '\r' }
  predicate IsDigit(c: char) { '0' <= c <= '9' }
  predicate IsHex(c: char) { '0' <= c <= '9' || 'a' <= c <= 'f' || 'A' <= c <= 'F' }
  predicate IsControl(c: char) { (c as int) < 0x20 }

  predicate AllSpace(s: string) { forall k :: 0 <= k < |s| ==> IsSpace(s[k]) }
  predicate AllDigits(s: string) { forall k :: 0 <= k < |s| ==> IsDigit(s[k]) }

  function SkipSpace(s: string): (r: string)
    ensures |r| <= |s|
    decreases |s|
  {
    if s != "" && IsSpace(s[0]) then SkipSpace(s[1..]) else s
  }

  // ----- strings -----

  datatype Text = NoText | Text(value: string, paired: bool, rest: string)

  function HexValue(c: char): (v: nat)
    requires IsHex(c)
    ensures v < 16
  {
    if c <= '9' then c as int - '0' as int
    else if c >= 'a' then c as int - 'a' as int + 10
    else c as int - 'A' as int + 10
  }

  /** Does a \u escape with four hexadecimal digits stand at the front of `s`? */
  predicate IsUnicodeEscape(s: string) {
    |s| >= 6 && s[0] == '\\' && s[1] == 'u' && IsHex(s[2]) && IsHex(s[3]) && IsHex(s[4]) && IsHex(s[5])
  }

  function CodeUnit(s: string): (u: nat)
    requires IsUnicodeEscape(s)
    ensures u < 0x10000
  {
    HexValue(s[2]) * 4096 + HexValue(s[3]) * 256 + HexValue(s[4]) * 16 + HexValue(s[5])
  }

  predicate IsHigh(u: nat) { 0xD800 <= u <= 0xDBFF }
  predicate IsLow(u: nat) { 0xDC00 <= u <= 0xDFFF }

  function Combine(high: nat, low: nat): char
    requires IsHigh(high) && IsLow(low)
  {
    (0x10000 + (high - 0xD800) * 0x400 + (low - 0xDC00)) as char
  }

  predicate IsSimpleEscape(c: char) {
    c == '"' || c == '\\' || c == '/' || c == 'b' || c == 'f' || c == 'n' || c == 'r' || c == 't'
  }

  function Unescape(c: char): char
    requires IsSimpleEscape(c)
  {
    if c == 'b' then 0x8 as char else if c == 'f' then 0xC as char else if c == 'n' then '\n'
    else if c == 'r' then '\r' else if c == 't' then '\t' else c
  }

  function Cons(c: char, paired: bool, t: Text): Text {
    if t.NoText? then NoText else Text([c] + t.value, paired && t.paired, t.rest)
  }

  /** Reads a string from just after its opening quotation mark. An escape pair of surrogates
      is one character; a surrogate without its partner reads as U+FFFD and is flagged. */
  function ReadText(s: string): (t: Text)
    ensures t.Text? ==> |t.rest| < |s|
    decreases |s|
  {
    if s == "" then NoText
    else if s[0] == '"' then Text("", true, s[1..])
    else if s[0] == '\\' then
      if IsUnicodeEscape(s) then
        var u := CodeUnit(s);
        if IsHigh(u) && IsUnicodeEscape(s[6..]) && IsLow(CodeUnit(s[6..]))
        then Cons(Combine(u, CodeUnit(s[6..])), true, ReadText(s[12..]))
        else if IsHigh(u) || IsLow(u) then Cons(0xFFFD as char, false, ReadText(s[6..]))
        else Cons(u as char, true, ReadText(s[6..]))
      else if |s| >= 2 && IsSimpleEscape(s[1]) then Cons(Unescape(s[1]), true, ReadText(s[2..]))
      else NoText
    else if IsControl(s[0]) then NoText
    else Cons(s[0], true, ReadText(s[1..]))
  }

  // ----- numbers -----

  function DigitRun(s: string): (n: nat)
    ensures n <= |s| && AllDigits(s[..n]) && (n < |s| ==> !IsDigit(s[n]))
    decreases |s|
  {
    if s == "" || !IsDigit(s[0]) then 0
    else
      var n := DigitRun(s[1..]);
      assert s[..n + 1] == [s[0]] + s[1..][..n];
      n + 1
  }

  function DigitsValue(s: string): nat
    requires AllDigits(s)
    decreases |s|
  {
    if s == "" then 0 else DigitsValue(s[..|s| - 1]) * 10 + (s[|s| - 1] as int - '0' as int)
  }

  /** Length of the fraction and exponent at the front of `s`, if any. */
  function FractionRun(s: string): (n: nat)
    ensures n <= |s|
  {
    var f := if |s| >= 2 && s[0] == '.' && IsDigit(s[1]) then 1 + DigitRun(s[1..]) else 0;
    var e := s[f..];
    if e == "" || (e[0] != 'e' && e[0] != 'E') then f
    else
      var sign := if |e| >= 2 && (e[1] == '+' || e[1] == '-') then 2 else 1;
      if DigitRun(e[sign..]) == 0 then f else f + sign + DigitRun(e[sign..])
  }

  function Signed(negative: bool, n: nat): int { if negative then -(n as int) else n }

  datatype Parsed = NoParse | Parsed(value: Value, paired: bool, rest: string)

  function ReadNumber(s: string): (p: Parsed)
    ensures p.Parsed? ==> |p.rest| < |s|
  {
    var d := if s != "" && s[0] == '-' then s[1..] else s;
    var run := DigitRun(d);
    if run == 0 then NoParse
    else
      var n := if d[0] == '0' then 1 else run;
      var f := FractionRun(d[n..]);
      if f > 0 then Parsed(VFloat(s[..|s| - |d| + n + f]), true, d[n + f..])
      else Parsed(VInt(Signed(s[0] == '-', DigitsValue(d[..n]))), true, d[n..])
  }

  // ----- values -----

  datatype MembersRead = NoMembers | MembersRead(members: seq<Member>, paired: bool, rest: string)
  datatype ItemsRead = NoItems | ItemsRead(items: seq<Value>, paired: bool, rest: string)

  function ReadValue(s: string): (p: Parsed)
    ensures p.Parsed? ==> |p.rest| < |s|
    decreases |s|, 2
  {
    if s == "" then NoParse
    else if s[0] == '"' then
      var t := ReadText(s[1..]);
      if t.NoText? then NoParse else Parsed(VStr(t.value), t.paired, t.rest)
    else if s[0] == '{' then
      var inner := SkipSpace(s[1..]);
      if inner != "" && inner[0] == '}' then Parsed(VDict([]), true, inner[1..])
      else
        var m := ReadMembers(inner);
        if m.NoMembers? then NoParse else Parsed(VDict(m.members), m.paired, m.rest)
    else if s[0] == '[' then
      var inner := SkipSpace(s[1..]);
      if inner != "" && inner[0] == ']' then Parsed(VList([]), true, inner[1..])
      else
        var m := ReadItems(inner);
        if m.NoItems? then NoParse else Parsed(VList(m.items), m.paired, m.rest)
    else if "null" <= s then Parsed(VNull, true, s[4..])
    else if "true" <= s then Parsed(VBool(true), true, s[4..])
    else if "false" <= s then Parsed(VBool(false), true, s[5..])
    else ReadNumber(s)
  }

  /** The members of an object, from the first key to the closing brace. */
  function ReadMembers(s: string): (m: MembersRead)
    ensures m.MembersRead? ==> |m.rest| < |s|
    decreases |s|, 1
  {
    if s == "" || s[0] != '"' then NoMembers
    else
      var key := ReadText(s[1..]);
      if key.NoText? then NoMembers
      else
        var colon := SkipSpace(key.rest);
        if colon == "" || colon[0] != ':' then NoMembers
        else
          var v := ReadValue(SkipSpace(colon[1..]));
          if v.NoParse? then NoMembers else ReadMoreMembers(Member(key.value, v.value), key.paired && v.paired, SkipSpace(v.rest))
  }

  function ReadMoreMembers(first: Member, paired: bool, s: string): (m: MembersRead)
    ensures m.MembersRead? ==> |m.rest| < |s|
    decreases |s|, 3
  {
    if s == "" then NoMembers
    else if s[0] == '}' then MembersRead([first], paired, s[1..])
    else if s[0] != ',' then NoMembers
    else
      var more := ReadMembers(SkipSpace(s[1..]));
      if more.NoMembers? then NoMembers else MembersRead([first] + more.members, paired && more.paired, more.rest)
  }

  function ReadItems(s: string): (m: ItemsRead)
    ensures m.ItemsRead? ==> |m.rest| < |s|
    decreases |s|, 3
  {
    var v := ReadValue(s);
    if v.NoParse? then NoItems
    else
      var after := SkipSpace(v.rest);
      if after == "" then NoItems
      else if after[0] == ']' then ItemsRead([v.value], v.paired, after[1..])
      else if after[0] != ',' then NoItems
      else
        var more := ReadItems(SkipSpace(after[1..]));
        if more.NoItems? then NoItems else ItemsRead([v.value] + more.items, v.paired && more.paired, more.rest)
  }

  // ----- the strict loader -----

  predicate Distinct(keys: seq<string>) { forall i, j :: 0 <= i < j < |keys| ==> keys[i] != keys[j] }

  /** No object anywhere in the value repeats a key. */
  predicate UniqueKeys(v: Value)
    decreases v
  {
    match v
    case VList(items) => forall k :: 0 <= k < |items| ==> UniqueKeys(items[k])
    case VDict(members) => Distinct(Keys(members)) && forall k :: 0 <= k < |members| ==> UniqueKeys(members[k].value)
    case _ => true
  }

  datatype Loaded = Loaded(value: Value) | Malformed | DuplicateKey | UnpairedSurrogate

  function Loads(text: string): Loaded {
    var p := ReadValue(SkipSpace(text));
    if p.NoParse? then Malformed
    else if !UniqueKeys(p.value) then DuplicateKey
    else if SkipSpace(p.rest) != "" then Malformed
    else if !p.paired then UnpairedSurrogate
    else Loaded(p.value)
  }

  // ----- the serializer -----

  function HexDigit(n: nat): char
    requires n < 16
  {
    if n < 10 then ('0' as int + n) as char else ('a' as int + n - 10) as char
  }

  function UnicodeEscape(c: char): string
    requires (c as int) < 0x80
  {
    ['\\', 'u', '0', '0', HexDigit(c as int / 16), HexDigit(c as int % 16)]
  }

  /** One character inside a JSON string; `del` asks for U+007F to be escaped too. */
  function EscapeChar(c: char, del: bool): string {
    if c == '"' then "\\\"" else if c == '\\' then "\\\\"
    else if c == '\n' then "\\n" else if c == '\r' then "\\r" else if c == '\t' then "\\t"
    else if c as int == 0xC then "\\f" else if c as int == 0x8 then "\\b"
    else if IsControl(c) || (del && c as int == 0x7F) then UnicodeEscape(c)
    else [c]
  }

  function EscapeText(s: string, del: bool): string
    decreases |s|
  {
    if s == "" then "" else EscapeChar(s[0], del) + EscapeText(s[1..], del)
  }

  function QuoteText(s: string, del: bool): string { "\"" + EscapeText(s, del) + "\"" }

  function Digits(n: nat): (s: string)
    ensures s != "" && AllDigits(s) && DigitsValue(s) == n
    ensures s[0] == '0' ==> n == 0 && |s| == 1
    decreases n
  {
    if n < 10 then
      var s := [('0' as int + n) as char];
      assert s[..0] == "";
      s
    else
      var s := Digits(n / 10) + [('0' as int + n % 10) as char];
      assert s[..|s| - 1] == Digits(n / 10);
      s
  }

  function IntText(i: int): string { if i < 0 then "-" + Digits(-i) else Digits(i) }

  predicate IsScalar(v: Value) { v.VNull? || v.VBool? || v.VInt? || v.VStr? }

  /** `json.dumps` without ASCII escaping, for scalar values. */
  function Dumps(v: Value): string
    requires IsScalar(v)
  {
    match v
    case VNull => "null"
    case VBool(b) => if b then "true" else "false"
    case VInt(i) => IntText(i)
    case VStr(s) => QuoteText(s, false)
  }

  // ----- reading back what was written -----

  lemma {:induction false} SkipSpaces(w: string, s: string)
    requires AllSpace(w)
    ensures SkipSpace(w + s) == SkipSpace(s)
    decreases |w|
  {
    if w == "" {
      assert w + s == s;
    } else {
      assert (w + s)[1..] == w[1..] + s;
      SkipSpaces(w[1..], s);
    }
  }

  lemma ReadEscaped(c: char, del: bool, s: string)
    ensures ReadText(EscapeChar(c, del) + s) == Cons(c, true, ReadText(s))
  {
    var e := EscapeChar(c, del);
    var t := e + s;
    hide CodeUnit;
    if |e| == 1 {
      assert t[1..] == s;
    } else if |e| == 2 {
      SimpleEscapes(c, del);
      assert t[0] == '\\' && t[1] == e[1] && t[2..] == s;
    } else {
      assert t[6..] == s;
      EscapeCodes(c, s);
    }
  }

  lemma SimpleEscapes(c: char, del: bool)
    requires |EscapeChar(c, del)| == 2
    ensures var e := EscapeChar(c, del); e[0] == '\\' && e[1] != 'u' && IsSimpleEscape(e[1]) && Unescape(e[1]) == c
  {
  }

  lemma EscapeCodes(c: char, s: string)
    requires (c as int) < 0x80
    ensures var t := UnicodeEscape(c) + s; IsUnicodeEscape(t) && CodeUnit(t) == c as int
  {
    assert HexValue(HexDigit(c as int / 16)) == c as int / 16 && HexValue(HexDigit(c as int % 16)) == c as int % 16;
    assert IsHex(HexDigit(c as int / 16)) && IsHex(HexDigit(c as int % 16));
  }

  lemma ReadQuote(rest: string)
    ensures ReadText("\"" + rest) == Text("", true, rest)
  {
    assert ("\"" + rest)[1..] == rest;
  }

  /** A serialized string reads back as itself, whatever follows it. */
  lemma {:induction false} ReadQuoted(s: string, del: bool, rest: string)
    ensures ReadText(EscapeText(s, del) + ("\"" + rest)) == Text(s, true, rest)
    decreases |s|
  {
    hide ReadText;
    var tail := "\"" + rest;
    if s == "" {
      ReadQuote(rest);
      assert "" + tail == tail;
    } else {
      ReadQuoted(s[1..], del, rest);
      var more := EscapeText(s[1..], del) + tail;
      assert EscapeText(s, del) + tail == EscapeChar(s[0], del) + more;
      ReadEscaped(s[0], del, more);
      assert [s[0]] + s[1..] == s;
    }
  }

  /** Nothing that could continue a number. */
  predicate Delimited(s: string) { s == "" || s[0] == ',' || s[0] == '}' || IsSpace(s[0]) }

  lemma {:induction false} DigitRunStops(d: string, rest: string)
    requires AllDigits(d) && Delimited(rest)
    ensures DigitRun(d + rest) == |d|
    decreases |d|
  {
    if d == "" {
      assert d + rest == rest;
    } else {
      assert (d + rest)[1..] == d[1..] + rest;
      DigitRunStops(d[1..], rest);
    }
  }

  /** Digits of an integer literal without a superfluous zero. */
  predicate IsNatural(d: string) { d != "" && AllDigits(d) && (d[0] == '0' ==> |d| == 1) }

  lemma ReadDigits(d: string, rest: string)
    requires IsNatural(d) && Delimited(rest)
    ensures var n := DigitRun(d + rest);
            && n == |d| && (d + rest)[0] == d[0]
            && (d + rest)[..n] == d && (d + rest)[n..] == rest && FractionRun(rest) == 0
  {
    DigitRunStops(d, rest);
  }

  lemma ReadInteger(neg: bool, d: string, rest: string)
    requires IsNatural(d) && Delimited(rest)
    ensures ReadNumber((if neg then "-" else "") + d + rest) == Parsed(VInt(Signed(neg, DigitsValue(d))), true, rest)
  {
    hide DigitRun;
    hide FractionRun;
    hide DigitsValue;
    ReadDigits(d, rest);
    if neg {
      assert ("-" + d + rest)[1..] == d + rest;
    } else {
      assert "" + d + rest == d + rest;
    }
  }
}
