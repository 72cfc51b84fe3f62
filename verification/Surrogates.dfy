module Surrogates {
  // Which \u escapes of a JSON text leave a surrogate unpaired, said of the text alone: cut it
  // into characters and escapes and look at neighbours.

  import opened Json

  /** The width of the character or escape at the front of a text. */
  function UnitWidth(t: string): (w: nat)
    requires t != ""
    ensures 1 <= w <= |t|
  {
    if IsUnicodeEscape(t) then 6 else if t[0] == '\\' && |t| >= 2 then 2 else 1
  }

  /** A text cut into characters and escapes. */
  function Units(t: string): seq<string>
    decreases |t|
  {
    if t == "" then [] else [t[..UnitWidth(t)]] + Units(t[UnitWidth(t)..])
  }

  predicate IsHighUnit(u: string) { |u| == 6 && IsUnicodeEscape(u) && IsHigh(CodeUnit(u)) }
  predicate IsLowUnit(u: string) { |u| == 6 && IsUnicodeEscape(u) && IsLow(CodeUnit(u)) }

  /** A high surrogate not directly followed by a low one, or a low one not directly preceded by
      a high one. */
  predicate IsUnpaired(us: seq<string>, k: nat)
    requires k < |us|
  {
    || (IsHighUnit(us[k]) && !(k + 1 < |us| && IsLowUnit(us[k + 1])))
    || (IsLowUnit(us[k]) && !(k > 0 && IsHighUnit(us[k - 1])))
  }

  predicate AllPaired(us: seq<string>) { forall k :: 0 <= k < |us| ==> !IsUnpaired(us, k) }

  /** No escape in the text leaves a surrogate unpaired. */
  predicate Paired(t: string) { AllPaired(Units(t)) }

  /** A whole character or escape. */
  predicate IsPiece(u: string) {
    || (|u| == 1 && u[0] != '\\')
    || (|u| == 2 && u[0] == '\\' && u[1] != 'u')
    || (|u| == 6 && IsUnicodeEscape(u))
  }

  predicate IsSurrogate(u: string) { IsHighUnit(u) || IsLowUnit(u) }

  lemma FirstUnit(u: string, x: string)
    requires IsPiece(u)
    ensures Units(u + x) == [u] + Units(x)
  {
    var t := u + x;
    assert forall k :: 0 <= k < |u| ==> t[k] == u[k];
    assert UnitWidth(t) == |u|;
    assert t[..|u|] == u && t[|u|..] == x;
  }

  lemma NeutralFirst(u: string, us: seq<string>)
    requires !IsSurrogate(u)
    ensures AllPaired([u] + us) <==> AllPaired(us)
  {
    var all := [u] + us;
    assert forall k :: 0 <= k < |us| ==> all[k + 1] == us[k];
    if AllPaired(all) {
      forall k | 0 <= k < |us|
        ensures !IsUnpaired(us, k)
      {
        assert !IsUnpaired(all, k + 1);
      }
    }
    if AllPaired(us) {
      forall k | 0 <= k < |all|
        ensures !IsUnpaired(all, k)
      {
        if k > 0 { assert !IsUnpaired(us, k - 1); }
      }
    }
  }

  lemma PairFirst(high: string, low: string, us: seq<string>)
    requires IsHighUnit(high) && IsLowUnit(low)
    ensures AllPaired([high] + ([low] + us)) <==> AllPaired(us)
  {
    var all := [high] + ([low] + us);
    assert forall k :: 0 <= k < |us| ==> all[k + 2] == us[k];
    assert !IsHighUnit(low) by { assert CodeUnit(low) >= 0xDC00; }
    if AllPaired(all) {
      forall k | 0 <= k < |us|
        ensures !IsUnpaired(us, k)
      {
        assert !IsUnpaired(all, k + 2);
      }
    }
    if AllPaired(us) {
      forall k | 0 <= k < |all|
        ensures !IsUnpaired(all, k)
      {
        if k > 1 { assert !IsUnpaired(us, k - 2); }
      }
    }
  }

  lemma UnpairedFirst(u: string, us: seq<string>)
    requires IsLowUnit(u) || (IsHighUnit(u) && (us == [] || !IsLowUnit(us[0])))
    ensures !AllPaired([u] + us)
  {
    assert IsUnpaired([u] + us, 0);
  }

  /** A separator that is no surrogate keeps what stands before it and after it apart. */
  lemma SeparatorSplits(xs: seq<string>, sep: string, ys: seq<string>)
    requires !IsSurrogate(sep)
    ensures AllPaired(xs + ([sep] + ys)) <==> AllPaired(xs) && AllPaired(ys)
  {
    var all, n := xs + ([sep] + ys), |xs|;
    assert all[n] == sep && forall k :: 0 <= k < |ys| ==> all[n + 1 + k] == ys[k];
    if AllPaired(all) {
      forall k | 0 <= k < |xs|
        ensures !IsUnpaired(xs, k)
      {
        assert !IsUnpaired(all, k);
      }
      forall k | 0 <= k < |ys|
        ensures !IsUnpaired(ys, k)
      {
        assert !IsUnpaired(all, n + 1 + k);
      }
    }
    if AllPaired(xs) && AllPaired(ys) {
      forall k | 0 <= k < |all|
        ensures !IsUnpaired(all, k)
      {
        if k < n { assert !IsUnpaired(xs, k); }
        if k > n { assert !IsUnpaired(ys, k - n - 1); }
      }
    }
  }

  /** Putting a piece that is no surrogate in front changes nothing. */
  lemma PieceInFront(u: string, x: string)
    requires IsPiece(u) && !IsSurrogate(u)
    ensures Paired(u + x) <==> Paired(x)
  {
    hide Units;
    hide AllPaired;
    FirstUnit(u, x);
    NeutralFirst(u, Units(x));
  }

  predicate NoBackslash(a: string) { forall k :: 0 <= k < |a| ==> a[k] != '\\' }

  lemma {:induction false} PlainInFront(a: string, x: string)
    requires NoBackslash(a)
    ensures Paired(a + x) <==> Paired(x)
    decreases |a|
  {
    hide Paired;
    if a == "" {
      assert a + x == x;
    } else {
      PlainInFront(a[1..], x);
      assert a + x == a[..1] + (a[1..] + x);
      PieceInFront(a[..1], a[1..] + x);
    }
  }

  lemma EscapeCharPiece(c: char, del: bool)
    ensures IsPiece(EscapeChar(c, del)) && !IsSurrogate(EscapeChar(c, del))
  {
    var e := EscapeChar(c, del);
    if |e| == 6 {
      assert HexValue(e[2]) == 0 && HexValue(e[3]) == 0;
      assert CodeUnit(e) < 256;
    }
  }

  /** The serializer writes no surrogate escapes. */
  lemma {:induction false} EscapedInFront(s: string, del: bool, x: string)
    ensures Paired(EscapeText(s, del) + x) <==> Paired(x)
    decreases |s|
  {
    hide Paired;
    hide EscapeChar;
    if s == "" {
      assert EscapeText(s, del) + x == x;
    } else {
      EscapedInFront(s[1..], del, x);
      var more := EscapeText(s[1..], del) + x;
      assert EscapeText(s, del) + x == EscapeChar(s[0], del) + more;
      EscapeCharPiece(s[0], del);
      PieceInFront(EscapeChar(s[0], del), more);
    }
  }

  lemma QuotedInFront(s: string, del: bool, x: string)
    ensures Paired(QuoteText(s, del) + x) <==> Paired(x)
  {
    hide Paired;
    var q := "\"" + x;
    assert QuoteText(s, del) + x == "\"" + (EscapeText(s, del) + q);
    PieceInFront("\"", EscapeText(s, del) + q);
    EscapedInFront(s, del, q);
    PieceInFront("\"", x);
  }

  lemma NothingUnpaired()
    ensures Paired("")
  {
  }
}
