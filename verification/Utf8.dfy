module Utf8 {
  // UTF-8 validation in two forms: `ValidUtf8`, one pass over a whole byte string
  // (controlled_inference/persistent_worker.cpp), and `Utf8Accumulator`, which is fed chunks
  // and holds back an unfinished character (native/generation_safety.cpp). Both are measured
  // against the grammar of section 4 of RFC 3629.

  type Byte = b: int | 0 <= b < 256

  predicate IsTail(b: Byte) { 0x80 <= b <= 0xBF }

  // ----- the grammar of section 4 of RFC 3629 -----

  predicate IsChar(s: seq<Byte>) {
    || (|s| == 1 && s[0] <= 0x7F)
    || (|s| == 2 && 0xC2 <= s[0] <= 0xDF && IsTail(s[1]))
    || (|s| == 3 && IsTail(s[2]) && IsTripleHead(s[0], s[1]))
    || (|s| == 4 && IsTail(s[2]) && IsTail(s[3]) && IsQuadHead(s[0], s[1]))
  }

  predicate IsTripleHead(a: Byte, b: Byte) {
    || (a == 0xE0 && 0xA0 <= b <= 0xBF)
    || (0xE1 <= a <= 0xEC && IsTail(b))
    || (a == 0xED && 0x80 <= b <= 0x9F)
    || (0xEE <= a <= 0xEF && IsTail(b))
  }

  predicate IsQuadHead(a: Byte, b: Byte) {
    || (a == 0xF0 && 0x90 <= b <= 0xBF)
    || (0xF1 <= a <= 0xF3 && IsTail(b))
    || (a == 0xF4 && 0x80 <= b <= 0x8F)
  }

  /** UTF8-octets: a byte string that splits into characters of the grammar. */
  ghost predicate WellFormed(s: seq<Byte>)
    decreases |s|
  {
    s == [] || exists n :: 1 <= n <= |s| && IsChar(s[..n]) && WellFormed(s[n..])
  }

  // ----- one character as the accumulator reads it -----

  datatype Lead = NotALead | Lead(width: nat, bits: nat, minimum: nat)

  function LeadOf(first: Byte): Lead {
    if first <= 0x7F then Lead(1, first, 0)
    else if 0xC2 <= first <= 0xDF then Lead(2, first % 32, 0x80)
    else if 0xE0 <= first <= 0xEF then Lead(3, first % 16, 0x800)
    else if 0xF0 <= first <= 0xF4 then Lead(4, first % 8, 0x10000)
    else NotALead
  }

  /** Shifts the six payload bits of each continuation byte into `codePoint`. */
  function Accumulate(codePoint: nat, tail: seq<Byte>): nat
    decreases |tail|
  {
    if tail == [] then codePoint
    else Accumulate(codePoint * 64 + tail[0] % 64, tail[1..])
  }

  predicate InRange(codePoint: nat, minimum: nat) {
    minimum <= codePoint <= 0x10FFFF && !(0xD800 <= codePoint <= 0xDFFF)
  }

  datatype Peek = Malformed | Unfinished | Char(width: nat)

  /** What the accumulator makes of the front of a non-empty buffer. */
  function PeekChar(s: seq<Byte>): (p: Peek)
    requires s != []
    ensures p.Char? ==> 1 <= p.width <= |s|
  {
    var lead := LeadOf(s[0]);
    if lead.NotALead? then Malformed
    else if |s| < lead.width then Unfinished
    else if forall i :: 1 <= i < lead.width ==> IsTail(s[i]) then
      if InRange(Accumulate(lead.bits, s[1..lead.width]), lead.minimum) then Char(lead.width) else Malformed
    else Malformed
  }

  lemma AccumulateUnrolled(bits: nat, t: seq<Byte>)
    ensures |t| == 1 ==> Accumulate(bits, t) == bits * 64 + t[0] % 64
    ensures |t| == 2 ==> Accumulate(bits, t) == (bits * 64 + t[0] % 64) * 64 + t[1] % 64
    ensures |t| == 3 ==> Accumulate(bits, t) == ((bits * 64 + t[0] % 64) * 64 + t[1] % 64) * 64 + t[2] % 64
    decreases |t|
  {
    if 1 <= |t| <= 3 { AccumulateUnrolled(bits * 64 + t[0] % 64, t[1..]); }
  }

  lemma PairRange(a: Byte, b: Byte)
    requires 0xC2 <= a <= 0xDF && IsTail(b)
    ensures InRange(a % 32 * 64 + b % 64, 0x80)
  {
    assert a % 32 == a - 192 && b % 64 == b - 128;
  }

  lemma TripleRange(a: Byte, b: Byte, c: Byte)
    requires 0xE0 <= a <= 0xEF && IsTail(b) && IsTail(c)
    ensures InRange((a % 16 * 64 + b % 64) * 64 + c % 64, 0x800) <==> IsTripleHead(a, b)
  {
    assert a % 16 == a - 224 && b % 64 == b - 128 && c % 64 == c - 128;
  }

  lemma QuadRange(a: Byte, b: Byte, c: Byte, d: Byte)
    requires 0xF0 <= a <= 0xF4 && IsTail(b) && IsTail(c) && IsTail(d)
    ensures InRange(((a % 8 * 64 + b % 64) * 64 + c % 64) * 64 + d % 64, 0x10000) <==> IsQuadHead(a, b)
  {
    assert a % 8 == a - 240 && b % 64 == b - 128 && c % 64 == c - 128 && d % 64 == d - 128;
  }

  /** The arithmetic code-point test accepts exactly the byte ranges of the grammar. */
  lemma PeekMatchesGrammar(s: seq<Byte>, n: nat)
    requires s != [] && 1 <= n <= |s|
    ensures PeekChar(s) == Char(n) <==> IsChar(s[..n])
  {
    var lead := LeadOf(s[0]);
    if lead.Lead? && lead.width == n && forall i :: 1 <= i < n ==> IsTail(s[i]) {
      var tail := s[1..n];
      AccumulateUnrolled(lead.bits, tail);
      if n == 2 {
        PairRange(s[0], s[1]);
      } else if n == 3 {
        TripleRange(s[0], s[1], s[2]);
      } else if n == 4 {
        QuadRange(s[0], s[1], s[2], s[3]);
      }
    }
  }

  /** Bytes that arrive later cannot change a verdict already reached. */
  lemma PeekStable(s: seq<Byte>, t: seq<Byte>)
    requires s != []
    ensures !PeekChar(s).Unfinished? ==> PeekChar(s + t) == PeekChar(s)
  {
    var lead := LeadOf(s[0]);
    if lead.Lead? && lead.width <= |s| {
      assert (s + t)[1..lead.width] == s[1..lead.width];
      assert forall i :: 1 <= i < lead.width ==> (s + t)[i] == s[i];
    }
  }

  // ----- scanning a buffer -----

  datatype Scanned = Broken | Upto(offset: nat)

  function Shift(n: nat, r: Scanned): Scanned {
    if r.Broken? then Broken else Upto(n + r.offset)
  }

  /** Greedy scan: how many leading bytes are complete characters. */
  function Scan(s: seq<Byte>): (r: Scanned)
    ensures r.Upto? ==> r.offset <= |s|
    decreases |s|
  {
    if s == [] then Upto(0)
    else match PeekChar(s)
      case Malformed => Broken
      case Unfinished => Upto(0)
      case Char(w) => Shift(w, Scan(s[w..]))
  }

  /** The scan reaches the end of the buffer exactly on well-formed input. */
  lemma {:induction false} ScanCompleteIffWellFormed(s: seq<Byte>)
    ensures Scan(s) == Upto(|s|) <==> WellFormed(s)
    decreases |s|
  {
    if s != [] {
      forall n | 1 <= n <= |s|
        ensures PeekChar(s) == Char(n) <==> IsChar(s[..n])
      {
        PeekMatchesGrammar(s, n);
      }
      match PeekChar(s)
      case Malformed =>
      case Unfinished =>
      case Char(w) => ScanCompleteIffWellFormed(s[w..]);
    }
  }

  /** Scanning in two instalments: the second starts from what the first held back. */
  lemma {:induction false} ScanResumes(a: seq<Byte>, b: seq<Byte>)
    ensures Scan(a).Broken? ==> Scan(a + b).Broken?
    ensures Scan(a).Upto? ==> Scan(a + b) == Shift(Scan(a).offset, Scan(a[Scan(a).offset..] + b))
    decreases |a|
  {
    hide PeekChar;
    if a == [] {
      assert a + b == b && a[0..] + b == b;
    } else {
      PeekStable(a, b);
      match PeekChar(a)
      case Malformed =>
      case Unfinished => assert a[0..] == a;
      case Char(w) =>
        ScanResumes(a[w..], b);
        assert (a + b)[w..] == a[w..] + b;
        if Scan(a).Upto? {
          assert a[w..][Scan(a).offset - w..] == a[Scan(a).offset..];
        }
    }
  }

  // ----- which inputs are refused -----

  /** How many bytes a character beginning with `first` has; none begins with it: 0. */
  function WidthFrom(first: Byte): nat {
    if first < 0x80 then 1 else if first < 0xC2 then 0 else if first < 0xE0 then 2
    else if first < 0xF0 then 3 else if first < 0xF5 then 4 else 0
  }

  /** The front of `s` is no character: no character begins with its first byte, or the bytes
      that should be one are all there and are not. */
  predicate BadFront(s: seq<Byte>) {
    s != [] && (WidthFrom(s[0]) == 0 || (WidthFrom(s[0]) <= |s| && !IsChar(s[..WidthFrom(s[0])])))
  }

  /** Somewhere after complete characters stands a bad one. */
  ghost predicate Refusable(s: seq<Byte>) {
    exists n :: 0 <= n <= |s| && WellFormed(s[..n]) && BadFront(s[n..])
  }

  lemma PeekRefuses(s: seq<Byte>)
    requires s != []
    ensures PeekChar(s).Malformed? <==> BadFront(s)
  {
    var w := WidthFrom(s[0]);
    if 1 <= w <= |s| { PeekMatchesGrammar(s, w); }
  }

  lemma {:induction false} CharThenWellFormed(s: seq<Byte>, w: nat, n: nat)
    requires 1 <= w <= n <= |s| && IsChar(s[..w])
    ensures WellFormed(s[..n]) <==> WellFormed(s[w..n])
  {
    hide IsChar;
    var t := s[..n];
    assert t[..w] == s[..w] && t[w..] == s[w..n];
    if WellFormed(t) {
      var k :| 1 <= k <= |t| && IsChar(t[..k]) && WellFormed(t[k..]);
      PeekMatchesGrammar(t, k);
      PeekMatchesGrammar(t, w);
      assert k == w;
    }
  }

  /** The scan breaks exactly on input with a bad character after complete ones. */
  lemma {:induction false} ScanBreaksExactly(s: seq<Byte>)
    ensures Scan(s).Broken? <==> Refusable(s)
    decreases |s|
  {
    if s == [] {
      assert !BadFront(s[0..]);
    } else {
      hide PeekChar;
      hide BadFront;
      PeekRefuses(s);
      assert s[..0] == [] && s[0..] == s;
      match PeekChar(s)
      case Malformed => assert WellFormed(s[..0]) && BadFront(s[0..]);
      case Unfinished => NoCharYet(s);
      case Char(w) => ScanBreaksLater(s, w);
    }
  }

  lemma NoCharYet(s: seq<Byte>)
    requires s != [] && PeekChar(s).Unfinished?
    ensures !Refusable(s)
  {
    PeekRefuses(s);
    assert s[0..] == s;
    forall k | 1 <= k <= |s|
      ensures !IsChar(s[..k])
    {
      PeekMatchesGrammar(s, k);
    }
    forall n | 0 < n <= |s|
      ensures !WellFormed(s[..n])
    {
      assert forall k :: 1 <= k <= n ==> s[..n][..k] == s[..k];
    }
  }

  lemma {:induction false} ScanBreaksLater(s: seq<Byte>, w: nat)
    requires s != [] && PeekChar(s) == Char(w)
    ensures Scan(s).Broken? <==> Refusable(s)
    decreases |s|, 0
  {
    hide PeekChar;
    hide BadFront;
    var rest := s[w..];
    ScanBreaksExactly(rest);
    PeekMatchesGrammar(s, w);
    PeekRefuses(s);
    if Refusable(rest) {
      var n :| 0 <= n <= |rest| && WellFormed(rest[..n]) && BadFront(rest[n..]);
      assert s[w..w + n] == rest[..n] && s[w + n..] == rest[n..];
      CharThenWellFormed(s, w, w + n);
      assert WellFormed(s[..w + n]) && BadFront(s[w + n..]);
    }
    if Refusable(s) {
      var n :| 0 <= n <= |s| && WellFormed(s[..n]) && BadFront(s[n..]);
      if n > 0 {
        WellFormedHasChar(s, w, n);
        CharThenWellFormed(s, w, n);
        assert rest[..n - w] == s[w..n] && rest[n - w..] == s[n..];
      }
    }
  }

  lemma WellFormedHasChar(s: seq<Byte>, w: nat, n: nat)
    requires 0 < n <= |s| && PeekChar(s) == Char(w) && WellFormed(s[..n])
    ensures w <= n
  {
    var t := s[..n];
    var k :| 1 <= k <= |t| && IsChar(t[..k]) && WellFormed(t[k..]);
    assert t[..k] == s[..k];
    PeekMatchesGrammar(s, k);
  }

  // ----- the accumulator's state, one chunk at a time -----

  datatype Acc = Acc(valid: bool, pending: seq<Byte>)

  const Fresh := Acc(true, [])

  datatype Fed = Fed(acc: Acc, completed: seq<Byte>)

  function Feed(acc: Acc, bytes: seq<Byte>): Fed {
    if !acc.valid then Fed(acc, [])
    else
      var buffer := acc.pending + bytes;
      match Scan(buffer)
      case Broken => Fed(Acc(false, buffer), [])
      case Upto(n) => Fed(Acc(true, buffer[n..]), buffer[..n])
  }

  function FeedAll(chunks: seq<seq<Byte>>): Fed
    decreases |chunks|
  {
    if chunks == [] then Fed(Fresh, [])
    else
      var before := FeedAll(chunks[..|chunks| - 1]);
      var now := Feed(before.acc, chunks[|chunks| - 1]);
      Fed(now.acc, before.completed + now.completed)
  }

  function Flatten(chunks: seq<seq<Byte>>): seq<Byte>
    decreases |chunks|
  {
    if chunks == [] then [] else Flatten(chunks[..|chunks| - 1]) + chunks[|chunks| - 1]
  }

  predicate Finished(acc: Acc) { acc.valid && acc.pending == [] }

  /** What the accumulator has handed out and holds back, as a function of all input. */
  ghost predicate Tracks(r: Fed, whole: seq<Byte>) {
    && r.acc.valid == Scan(whole).Upto?
    && (r.acc.valid ==>
          && r.completed == whole[..Scan(whole).offset]
          && r.acc.pending == whole[Scan(whole).offset..])
  }

  lemma SplitAcross(a: seq<Byte>, b: seq<Byte>, n: nat, m: nat)
    requires n <= |a| && m <= |a[n..] + b|
    ensures (a + b)[..n + m] == a[..n] + (a[n..] + b)[..m]
    ensures (a + b)[n + m..] == (a[n..] + b)[m..]
  {
  }

  lemma FeedTracks(before: Fed, head: seq<Byte>, bytes: seq<Byte>)
    requires Tracks(before, head)
    ensures var now := Feed(before.acc, bytes);
            Tracks(Fed(now.acc, before.completed + now.completed), head + bytes)
  {
    ScanResumes(head, bytes);
    if before.acc.valid {
      var n := Scan(head).offset;
      var again := Scan(head[n..] + bytes);
      if again.Upto? {
        SplitAcross(head, bytes, n, again.offset);
      }
    }
  }

  /** The state after any chunks is the scan of their concatenation: how the bytes were
      cut never shows, and output plus held-back bytes is exactly the input. */
  lemma {:induction false} FeedAllTracks(chunks: seq<seq<Byte>>)
    ensures Tracks(FeedAll(chunks), Flatten(chunks))
    ensures FeedAll(chunks).acc.valid ==> FeedAll(chunks).completed + FeedAll(chunks).acc.pending == Flatten(chunks)
    decreases |chunks|
  {
    hide Feed;
    hide Tracks;
    if chunks == [] {
      NothingFed();
    } else {
      var init := chunks[..|chunks| - 1];
      FeedAllTracks(init);
      FeedTracks(FeedAll(init), Flatten(init), chunks[|chunks| - 1]);
    }
    InputIsAccountedFor(FeedAll(chunks), Flatten(chunks));
  }

  lemma NothingFed()
    ensures Tracks(Fed(Fresh, []), [])
  {
  }

  lemma InputIsAccountedFor(r: Fed, whole: seq<Byte>)
    requires Tracks(r, whole)
    ensures r.acc.valid ==> r.completed + r.acc.pending == whole
  {
  }

  /** `finish()` after any chunking accepts exactly the UTF-8 strings. */
  lemma FinishIffWellFormed(chunks: seq<seq<Byte>>)
    ensures Finished(FeedAll(chunks).acc) <==> WellFormed(Flatten(chunks))
  {
    FeedAllTracks(chunks);
    ScanCompleteIffWellFormed(Flatten(chunks));
  }

  /** And it refuses exactly the inputs in which a bad character follows complete ones. */
  lemma InvalidIffRefusable(chunks: seq<seq<Byte>>)
    ensures !FeedAll(chunks).acc.valid <==> Refusable(Flatten(chunks))
  {
    FeedAllTracks(chunks);
    ScanBreaksExactly(Flatten(chunks));
  }

  /** Two ways of cutting one byte string agree on validity and, while valid, on
      everything handed out and everything held back. */
  lemma ChunkingIsInvisible(xs: seq<seq<Byte>>, ys: seq<seq<Byte>>)
    requires Flatten(xs) == Flatten(ys)
    ensures FeedAll(xs).acc.valid == FeedAll(ys).acc.valid
    ensures FeedAll(xs).acc.valid ==> FeedAll(xs) == FeedAll(ys)
  {
    FeedAllTracks(xs);
    FeedAllTracks(ys);
  }

  // ----- the two implementations -----

  class Utf8Accumulator {
    var valid: bool
    var pending: seq<Byte>

    constructor ()
      ensures Acc(valid, pending) == Fresh
    {
      valid, pending := true, [];
    }

    method Append(bytes: seq<Byte>) returns (ok: bool, completed: seq<Byte>)
      modifies this
      ensures Fed(Acc(valid, pending), completed) == Feed(old(Acc(valid, pending)), bytes)
      ensures ok == valid
    {
      hide PeekChar;
      if !valid { return false, []; }
      pending := pending + bytes;
      var offset := 0;
      while offset < |pending|
        invariant offset <= |pending| && valid && pending == old(pending) + bytes
        invariant Scan(pending) == Shift(offset, Scan(pending[offset..]))
      {
        var next := ReadChar(pending, offset);
        if next.Malformed? {
          valid := false;
          return false, [];
        }
        if next.Unfinished? { break; }
        assert pending[offset..][next.width..] == pending[offset + next.width..];
        offset := offset + next.width;
      }
      completed := pending[..offset];
      pending := pending[offset..];
      ok := true;
    }

    /** The body of the scanning loop: lead byte, continuation bytes, code-point range. */
    static method ReadChar(buffer: seq<Byte>, offset: nat) returns (next: Peek)
      requires offset < |buffer|
      ensures next == PeekChar(buffer[offset..])
    {
      ghost var rest := buffer[offset..];
      var lead := LeadOf(buffer[offset]);
      if lead.NotALead? { return Malformed; }
      if |buffer| - offset < lead.width { return Unfinished; }
      var codePoint: nat := lead.bits;
      var index := 1;
      while index < lead.width
        invariant 1 <= index <= lead.width <= |rest|
        invariant forall i :: 1 <= i < index ==> IsTail(rest[i])
        invariant Accumulate(codePoint, rest[index..lead.width]) == Accumulate(lead.bits, rest[1..lead.width])
      {
        var byte: int := buffer[offset + index];
        if !IsTail(byte) { return Malformed; }
        codePoint := codePoint * 64 + byte % 64;
        assert rest[index..lead.width][1..] == rest[index + 1..lead.width];
        index := index + 1;
      }
      if !InRange(codePoint, lead.minimum) { return Malformed; }
      return Char(lead.width);
    }

    predicate Finish()
      reads this
    {
      Finished(Acc(valid, pending))
    }
  }

  method ValidUtf8(bytes: seq<Byte>) returns (ok: bool)
    ensures ok <==> WellFormed(bytes)
  {
    var i := 0;
    while i < |bytes|
      invariant 0 <= i <= |bytes|
      invariant WellFormed(bytes) <==> WellFormed(bytes[i..])
    {
      var c := bytes[i];
      var rest := bytes[i..];
      var width := 0;
      if c <= 0x7F {
        width := 1;
      } else if 0xC2 <= c <= 0xDF {
        if i + 1 < |bytes| && IsTail(bytes[i + 1]) { width := 2; }
      } else if 0xE0 <= c <= 0xEF {
        if i + 2 < |bytes| {
          var c1, c2 := bytes[i + 1], bytes[i + 2];
          var bad := if c == 0xE0 then c1 < 0xA0 || c1 > 0xBF
                     else if c == 0xED then c1 < 0x80 || c1 > 0x9F
                     else !IsTail(c1);
          if IsTail(c2) && !bad { width := 3; }
        }
      } else if 0xF0 <= c <= 0xF4 {
        if i + 3 < |bytes| {
          var c1 := bytes[i + 1];
          var bad := if c == 0xF0 then c1 < 0x90 || c1 > 0xBF
                     else if c == 0xF4 then c1 < 0x80 || c1 > 0x8F
                     else !IsTail(c1);
          if !bad && IsTail(bytes[i + 2]) && IsTail(bytes[i + 3]) { width := 4; }
        }
      }
      CharWidthUnique(rest, width);
      if width == 0 { return false; }
      assert rest[width..] == bytes[i + width..];
      i := i + width;
    }
    return true;
  }

  /** At most one prefix of a byte string is a character, so the one-pass reader may
      commit to the width its first byte announces. */
  lemma CharWidthUnique(s: seq<Byte>, width: nat)
    requires s != [] && width <= |s|
    requires if width == 0 then forall n :: 1 <= n <= |s| ==> !IsChar(s[..n]) else IsChar(s[..width])
    ensures if width == 0 then !WellFormed(s) else (WellFormed(s) <==> WellFormed(s[width..]))
  {
    if width != 0 {
      forall n | 1 <= n <= |s| && IsChar(s[..n])
        ensures n == width
      {
        PeekMatchesGrammar(s, n);
        PeekMatchesGrammar(s, width);
      }
    }
  }
}
