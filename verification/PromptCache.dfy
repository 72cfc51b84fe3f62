module PromptCache {
  // The prompt cache of the native runtime (native/inference_runtime_main.cpp,
  // `PromptStateCache`): snapshots of prompt prefixes and of session generations, bounded in
  // bytes and entries, least recently used first out. Byte counts are unbounded integers.

  import opened Basics
  import opened KvMemory

  const MIN_PREFIX_TOKENS: nat := 16

  datatype Kind = PrefixEntry | SessionEntry

  datatype Entry = Entry(
    kind: Kind, identity: string, sessionId: string, generation: nat, parent: Option<nat>,
    commitKey: string, tokens: seq<Token>, kv: seq<Cell>, bytes: nat, lastAccess: int)

  datatype Cache = Cache(
    enabled: bool, byteBudget: nat, maxEntries: nat, ttl: int, entries: seq<Entry>, bytesUsed: int)

  /** What the backend reports for one capture: the size it asks for and the bytes it wrote. */
  datatype Snapshot = Snapshot(size: nat, copied: nat)

  datatype Query =
    | ByPrefix(identity: string, tokens: seq<Token>)
    | ByCommit(identity: string, session: string, key: string)
    | ByGeneration(identity: string, session: string, generation: nat)

  predicate OfSession(e: Entry, identity: string, session: string) {
    e.kind == SessionEntry && e.identity == identity && e.sessionId == session
  }

  predicate Hits(q: Query, e: Entry) {
    match q
    case ByPrefix(identity, tokens) => e.kind == PrefixEntry && e.identity == identity && e.tokens == tokens
    case ByCommit(identity, session, key) => OfSession(e, identity, session) && e.commitKey == key
    case ByGeneration(identity, session, g) => OfSession(e, identity, session) && e.generation == g
  }

  /** Index of the first entry a query hits, or the number of entries. */
  function Find(entries: seq<Entry>, q: Query, from: nat): (i: nat)
    requires from <= |entries|
    ensures from <= i <= |entries|
    ensures i < |entries| ==> Hits(q, entries[i])
    ensures forall k :: from <= k < i ==> !Hits(q, entries[k])
    decreases |entries| - from
  {
    if from == |entries| || Hits(q, entries[from]) then from else Find(entries, q, from + 1)
  }

  function TotalBytes(entries: seq<Entry>): nat
    decreases |entries|
  {
    if entries == [] then 0 else TotalBytes(entries[..|entries| - 1]) + entries[|entries| - 1].bytes
  }

  function Touch(c: Cache, i: nat, now: int): Cache
    requires i < |c.entries|
  {
    c.(entries := c.entries[i := c.entries[i].(lastAccess := now)])
  }

  function Without(s: seq<Entry>, i: nat): seq<Entry>
    requires i < |s|
  {
    s[..i] + s[i + 1..]
  }

  function Drop(c: Cache, i: nat): Cache
    requires i < |c.entries|
  {
    c.(bytesUsed := c.bytesUsed - c.entries[i].bytes, entries := Without(c.entries, i))
  }

  predicate Expired(c: Cache, e: Entry, now: int) { now - e.lastAccess >= c.ttl }

  /** Drops the expired entries at and after index `i`. */
  function PruneFrom(c: Cache, now: int, i: nat): (r: Cache)
    requires i <= |c.entries|
    ensures r == c.(entries := r.entries, bytesUsed := r.bytesUsed)
    decreases |c.entries| - i
  {
    if i == |c.entries| then c
    else if Expired(c, c.entries[i], now) then PruneFrom(Drop(c, i), now, i)
    else PruneFrom(c, now, i + 1)
  }

  function Prune(c: Cache, now: int): Cache { PruneFrom(c, now, 0) }

  /** Index of the first entry with the oldest access among the first `n`. */
  function Oldest(entries: seq<Entry>, n: nat): (i: nat)
    requires 0 < n <= |entries|
    ensures i < n
    ensures forall k :: 0 <= k < n ==> entries[i].lastAccess <= entries[k].lastAccess
    decreases n
  {
    if n == 1 then 0
    else
      var best := Oldest(entries, n - 1);
      if entries[n - 1].lastAccess < entries[best].lastAccess then n - 1 else best
  }

  predicate Overfull(c: Cache, size: nat) { c.bytesUsed + size > c.byteBudget || |c.entries| >= c.maxEntries }

  function MakeRoom(c: Cache, size: nat): (r: Cache)
    ensures r == c.(entries := r.entries, bytesUsed := r.bytesUsed)
    decreases |c.entries|
  {
    if c.entries != [] && Overfull(c, size) then MakeRoom(Drop(c, Oldest(c.entries, |c.entries|)), size) else c
  }

  /** `capture`: makes room and stores `e` with the memory of the source slot. */
  function Capture(c: Cache, e: Entry, kv: seq<Cell>, s: Snapshot): (Cache, bool) {
    if s.size == 0 || s.size > c.byteBudget then (c, false)
    else
      var r := MakeRoom(c, s.size);
      if Overfull(r, s.size) || s.copied == 0 || s.copied > s.size then (r, false)
      else (r.(bytesUsed := r.bytesUsed + s.copied, entries := r.entries + [e.(kv := kv, bytes := s.copied)]), true)
  }

  // ----- prefix entries -----

  predicate Eligible(e: Entry, identity: string, tokens: seq<Token>) {
    && e.kind == PrefixEntry && e.identity == identity
    && MIN_PREFIX_TOKENS <= |e.tokens| <= |tokens| - 1
    && e.tokens <= tokens
  }

  /** Would the search loop replace `best` (-1: none yet) by the eligible entry `e`? */
  predicate Improves(entries: seq<Entry>, best: int, e: Entry)
    requires -1 <= best < |entries|
  {
    || best < 0
    || |e.tokens| > |entries[best].tokens|
    || (|e.tokens| == |entries[best].tokens| && e.lastAccess > entries[best].lastAccess)
  }

  function Best(entries: seq<Entry>, identity: string, tokens: seq<Token>, n: nat): (best: int)
    requires n <= |entries|
    ensures -1 <= best < n
    ensures best >= 0 ==> Eligible(entries[best], identity, tokens)
    ensures forall k :: 0 <= k < n && Eligible(entries[k], identity, tokens) ==>
              best >= 0 && |entries[k].tokens| <= |entries[best].tokens|
    decreases n
  {
    if n == 0 then -1
    else
      var best := Best(entries, identity, tokens, n - 1);
      if Eligible(entries[n - 1], identity, tokens) && Improves(entries, best, entries[n - 1]) then n - 1 else best
  }

  /** `restore`: the entry copied into the destination slot, if any. `copies` says whether
      the backend accepts the snapshot. */
  function Restore(c: Cache, identity: string, tokens: seq<Token>, now: int, copies: bool): (Cache, Option<Entry>) {
    if !c.enabled || |tokens| <= 1 then (c, None)
    else
      var p := Prune(c, now);
      var best := Best(p.entries, identity, tokens, |p.entries|);
      if best < 0 || !copies then (p, None)
      else (Touch(p, best, now), Some(p.entries[best]))
  }

  function Store(c: Cache, identity: string, tokens: seq<Token>, kv: seq<Cell>, now: int, s: Snapshot): (Cache, bool) {
    if !c.enabled || tokens == [] then (c, false)
    else
      var p := Prune(c, now);
      var i := Find(p.entries, ByPrefix(identity, tokens), 0);
      if i < |p.entries| then (Touch(p, i, now), true)
      else Capture(p, Entry(PrefixEntry, identity, "", 0, None, "", tokens, [], 0, now), kv, s)
  }

  // ----- session entries -----

  function RestoreSession(
    c: Cache, identity: string, session: string, generation: nat, tokens: seq<Token>, now: int, copies: bool)
    : (Cache, Option<Entry>)
  {
    if !c.enabled || |tokens| <= 1 then (c, None)
    else
      var p := Prune(c, now);
      var i := Find(p.entries, ByGeneration(identity, session, generation), 0);
      if i == |p.entries| || |p.entries[i].tokens| > |tokens| - 1 then (p, None)
      else if !(p.entries[i].tokens <= tokens) || !copies then (p, None)
      else (Touch(p, i, now), Some(p.entries[i]))
  }

  predicate RootFree(entries: seq<Entry>, identity: string, session: string, key: string) {
    forall i :: 0 <= i < |entries| && OfSession(entries[i], identity, session) ==> entries[i].commitKey == key
  }

  function SessionRootAllowed(c: Cache, identity: string, session: string, key: string, now: int): (Cache, bool) {
    var p := Prune(c, now);
    (p, RootFree(p.entries, identity, session, key))
  }

  /** One more than the largest generation of the session among the first `n` entries. */
  function NextGeneration(entries: seq<Entry>, identity: string, session: string, n: nat): (g: nat)
    requires n <= |entries|
    ensures g >= 1
    ensures forall k :: 0 <= k < n && OfSession(entries[k], identity, session) ==> entries[k].generation < g
    decreases n
  {
    if n == 0 then 1
    else
      var g := NextGeneration(entries, identity, session, n - 1);
      if OfSession(entries[n - 1], identity, session) && entries[n - 1].generation + 1 > g
      then entries[n - 1].generation + 1 else g
  }

  predicate HasSession(entries: seq<Entry>, identity: string, session: string) {
    exists i :: 0 <= i < |entries| && OfSession(entries[i], identity, session)
  }

  /** Is there already a child of this parent: would the commit be a copy-on-write clone? */
  predicate HasChild(entries: seq<Entry>, identity: string, session: string, parent: Option<nat>) {
    exists i :: 0 <= i < |entries| && OfSession(entries[i], identity, session) && parent.Some? && entries[i].parent == parent
  }

  datatype Commit = Commit(generation: nat, copyOnWrite: bool)

  function StoreSession(
    c: Cache, identity: string, session: string, parent: Option<nat>, key: string,
    tokens: seq<Token>, kv: seq<Cell>, now: int, s: Snapshot) : (Cache, Option<Commit>)
  {
    if !c.enabled || tokens == [] then (c, None)
    else
      var p := Prune(c, now);
      var i := Find(p.entries, ByCommit(identity, session, key), 0);
      if i < |p.entries| then
        if p.entries[i].parent != parent || p.entries[i].tokens != tokens then (p, None)
        else (Touch(p, i, now), Some(Commit(p.entries[i].generation, false)))
      else if parent.None? && HasSession(p.entries, identity, session) then (p, None)
      else
        var g := NextGeneration(p.entries, identity, session, |p.entries|);
        var clone := HasChild(p.entries, identity, session, parent);
        var (r, ok) := Capture(p, Entry(SessionEntry, identity, session, g, parent, key, tokens, [], 0, now), kv, s);
        (r, if ok then Some(Commit(g, clone)) else None)
  }

  function Clear(c: Cache): Cache { c.(entries := [], bytesUsed := 0) }

  // ----- what every operation keeps -----

  /** No two live entries answer for the same thing: prefix entries differ in identity or
      tokens; entries of one session differ in generation and commit key and at most one of
      them is a root. */
  predicate Apart(a: Entry, b: Entry) {
    && (a.kind == PrefixEntry && b.kind == PrefixEntry ==> a.identity != b.identity || a.tokens != b.tokens)
    && (a.kind == SessionEntry && OfSession(b, a.identity, a.sessionId) ==>
          a.generation != b.generation && a.commitKey != b.commitKey && !(a.parent.None? && b.parent.None?))
  }

  predicate AllApart(entries: seq<Entry>) {
    forall i, j :: 0 <= i < j < |entries| ==> Apart(entries[i], entries[j])
  }

  /** Each snapshot is the memory of exactly the tokens it is filed under. */
  predicate AllFaithful(entries: seq<Entry>) {
    forall i :: 0 <= i < |entries| ==> entries[i].kv == Cells(entries[i].tokens) && entries[i].tokens != []
  }

  predicate WellKept(c: Cache) {
    && c.bytesUsed == TotalBytes(c.entries)
    && c.bytesUsed <= c.byteBudget && |c.entries| <= c.maxEntries
    && AllApart(c.entries)
    && AllFaithful(c.entries)
  }

  lemma {:induction false} TotalBytesAppend(a: seq<Entry>, b: seq<Entry>)
    ensures TotalBytes(a + b) == TotalBytes(a) + TotalBytes(b)
    decreases |b|
  {
    if b == [] {
      assert a + b == a;
    } else {
      var n := |b| - 1;
      TotalBytesAppend(a, b[..n]);
      assert (a + b)[..|a + b| - 1] == a + b[..n];
    }
  }

  lemma DropKeeps(c: Cache, i: nat)
    requires WellKept(c) && i < |c.entries|
    ensures WellKept(Drop(c, i))
  {
    var e := c.entries;
    assert e == e[..i] + ([e[i]] + e[i + 1..]);
    TotalBytesAppend(e[..i], [e[i]] + e[i + 1..]);
    TotalBytesAppend([e[i]], e[i + 1..]);
    TotalBytesAppend(e[..i], e[i + 1..]);
    assert TotalBytes([e[i]]) == e[i].bytes by { assert [e[i]][..0] == []; }
    DropKeepsApart(e, i);
  }

  lemma DropKeepsApart(e: seq<Entry>, i: nat)
    requires AllApart(e) && i < |e|
    ensures AllApart(Without(e, i))
  {
    var r := Without(e, i);
    forall a, b | 0 <= a < b < |r|
      ensures Apart(r[a], r[b])
    {
      assert r[a] == e[if a < i then a else a + 1] && r[b] == e[if b < i then b else b + 1];
    }
  }

  lemma TouchKeeps(c: Cache, i: nat, now: int)
    requires WellKept(c) && i < |c.entries|
    ensures WellKept(Touch(c, i, now))
  {
    TotalBytesTouch(c.entries, i, now);
  }

  lemma {:induction false} TotalBytesTouch(e: seq<Entry>, i: nat, now: int)
    requires i < |e|
    ensures TotalBytes(e[i := e[i].(lastAccess := now)]) == TotalBytes(e)
    decreases |e|
  {
    var n := |e| - 1;
    var t := e[i].(lastAccess := now);
    if i < n {
      TotalBytesTouch(e[..n], i, now);
      assert e[i := t][..n] == e[..n][i := t];
    } else {
      assert e[i := t][..n] == e[..n];
    }
  }

  lemma {:induction false} PruneKeeps(c: Cache, now: int, i: nat)
    requires WellKept(c) && i <= |c.entries|
    ensures WellKept(PruneFrom(c, now, i))
    decreases |c.entries| - i
  {
    if i < |c.entries| {
      if Expired(c, c.entries[i], now) {
        DropKeeps(c, i);
        PruneKeeps(Drop(c, i), now, i);
      } else {
        PruneKeeps(c, now, i + 1);
      }
    }
  }

  /** Pruning removes the expired entries and nothing else. */
  lemma {:induction false} PruneIsExact(c: Cache, now: int, i: nat, e: Entry)
    requires i <= |c.entries| && forall k :: 0 <= k < i ==> !Expired(c, c.entries[k], now)
    ensures e in PruneFrom(c, now, i).entries <==> e in c.entries && !Expired(c, e, now)
    decreases |c.entries| - i
  {
    if i < |c.entries| {
      if Expired(c, c.entries[i], now) {
        var d := Drop(c, i);
        assert c.entries == c.entries[..i] + [c.entries[i]] + c.entries[i + 1..];
        assert forall k :: 0 <= k < i ==> d.entries[k] == c.entries[k];
        PruneIsExact(d, now, i, e);
      } else {
        PruneIsExact(c, now, i + 1, e);
      }
    }
  }

  lemma {:induction false} MakeRoomKeeps(c: Cache, size: nat)
    requires WellKept(c)
    ensures WellKept(MakeRoom(c, size))
    ensures forall e :: e in MakeRoom(c, size).entries ==> e in c.entries
    decreases |c.entries|
  {
    if c.entries != [] && Overfull(c, size) {
      var i := Oldest(c.entries, |c.entries|);
      DropKeeps(c, i);
      MakeRoomKeeps(Drop(c, i), size);
    }
  }

  lemma CaptureKeeps(c: Cache, e: Entry, kv: seq<Cell>, s: Snapshot)
    requires WellKept(c) && kv == Cells(e.tokens) && e.tokens != []
    requires forall x :: x in c.entries ==> Apart(x, e)
    ensures WellKept(Capture(c, e, kv, s).0)
  {
    MakeRoomKeeps(c, s.size);
    var r := MakeRoom(c, s.size);
    var stored := e.(kv := kv, bytes := s.copied);
    TotalBytesAppend(r.entries, [stored]);
    assert [stored][..0] == [];
    assert forall x :: x in r.entries ==> Apart(x, stored);
  }

  lemma RestoreKeeps(c: Cache, identity: string, tokens: seq<Token>, now: int, copies: bool)
    requires WellKept(c)
    ensures WellKept(Restore(c, identity, tokens, now, copies).0)
  {
    PruneKeeps(c, now, 0);
    var p := Prune(c, now);
    var best := Best(p.entries, identity, tokens, |p.entries|);
    if best >= 0 { TouchKeeps(p, best, now); }
  }

  lemma RestoreSessionKeeps(c: Cache, identity: string, session: string, g: nat, tokens: seq<Token>, now: int, copies: bool)
    requires WellKept(c)
    ensures WellKept(RestoreSession(c, identity, session, g, tokens, now, copies).0)
  {
    PruneKeeps(c, now, 0);
    var p := Prune(c, now);
    var i := Find(p.entries, ByGeneration(identity, session, g), 0);
    if i < |p.entries| { TouchKeeps(p, i, now); }
  }

  lemma StoreKeeps(c: Cache, identity: string, tokens: seq<Token>, kv: seq<Cell>, now: int, s: Snapshot)
    requires WellKept(c) && kv == Cells(tokens)
    ensures WellKept(Store(c, identity, tokens, kv, now, s).0)
  {
    PruneKeeps(c, now, 0);
    var p := Prune(c, now);
    var i := Find(p.entries, ByPrefix(identity, tokens), 0);
    if i < |p.entries| {
      TouchKeeps(p, i, now);
    } else if tokens != [] {
      CaptureKeeps(p, Entry(PrefixEntry, identity, "", 0, None, "", tokens, [], 0, now), kv, s);
    }
  }

  lemma StoreSessionKeeps(
    c: Cache, identity: string, session: string, parent: Option<nat>, key: string,
    tokens: seq<Token>, kv: seq<Cell>, now: int, s: Snapshot)
    requires WellKept(c) && kv == Cells(tokens)
    ensures WellKept(StoreSession(c, identity, session, parent, key, tokens, kv, now, s).0)
  {
    PruneKeeps(c, now, 0);
    var p := Prune(c, now);
    var i := Find(p.entries, ByCommit(identity, session, key), 0);
    if i < |p.entries| {
      TouchKeeps(p, i, now);
    } else if tokens != [] && !(parent.None? && HasSession(p.entries, identity, session)) {
      var g := NextGeneration(p.entries, identity, session, |p.entries|);
      var e := Entry(SessionEntry, identity, session, g, parent, key, tokens, [], 0, now);
      forall x | x in p.entries
        ensures Apart(x, e)
      {
        var k :| 0 <= k < |p.entries| && p.entries[k] == x;
        if OfSession(x, identity, session) { assert HasSession(p.entries, identity, session); }
      }
      CaptureKeeps(p, e, kv, s);
    }
  }

  // ----- what the searches mean -----

  /** Among entries kept apart, a query has at most one answer. */
  lemma UniqueHit(entries: seq<Entry>, q: Query, i: nat, k: nat)
    requires AllApart(entries) && i < |entries| && k < |entries|
    requires Hits(q, entries[i]) && Hits(q, entries[k])
    ensures i == k
  {
  }

  /** `restore` finds an entry exactly when an eligible one is live, and then it is the one
      and only longest: no other eligible entry is as long, so the tie-break never decides. */
  lemma BestIsUniqueLongest(entries: seq<Entry>, identity: string, tokens: seq<Token>)
    requires AllApart(entries)
    ensures var best := Best(entries, identity, tokens, |entries|);
            && (best >= 0 <==> exists k :: 0 <= k < |entries| && Eligible(entries[k], identity, tokens))
            && forall k :: 0 <= k < |entries| && k != best && Eligible(entries[k], identity, tokens) ==>
                 |entries[k].tokens| < |entries[best].tokens|
  {
    var best := Best(entries, identity, tokens, |entries|);
    forall k | 0 <= k < |entries| && Eligible(entries[k], identity, tokens) && |entries[k].tokens| == |entries[best].tokens|
      ensures k == best
    {
      assert entries[k].tokens == tokens[..|entries[k].tokens|] == entries[best].tokens;
      UniqueHit(entries, ByPrefix(identity, entries[k].tokens), k, best);
    }
  }

  /** Repeating a commit with the same key, parent and tokens while it is live returns the
      same generation and inserts nothing; with another parent or other tokens it fails. */
  lemma CommitIsIdempotent(
    c: Cache, identity: string, session: string, parent: Option<nat>, key: string,
    tokens: seq<Token>, kv: seq<Cell>, now: int, s: Snapshot, e: Entry)
    requires WellKept(c) && c.enabled && tokens != []
    requires e in c.entries && !Expired(c, e, now) && Hits(ByCommit(identity, session, key), e)
    ensures var (c1, r) := StoreSession(c, identity, session, parent, key, tokens, kv, now, s);
            && |c1.entries| == |Prune(c, now).entries| && c1.bytesUsed == Prune(c, now).bytesUsed
            && r == if e.parent == parent && e.tokens == tokens then Some(Commit(e.generation, false)) else None
  {
    PruneKeeps(c, now, 0);
    PruneIsExact(c, now, 0, e);
    var p := Prune(c, now);
    var i := Find(p.entries, ByCommit(identity, session, key), 0);
    var k :| 0 <= k < |p.entries| && p.entries[k] == e;
    UniqueHit(p.entries, ByCommit(identity, session, key), i, k);
  }

  /** The commit that makes an entry live makes it findable by its generation, with exactly
      the committed tokens. */
  lemma {:induction false} CommitThenRestore(
    c: Cache, identity: string, session: string, parent: Option<nat>, key: string,
    tokens: seq<Token>, kv: seq<Cell>, now: int, s: Snapshot, prompt: seq<Token>)
    requires WellKept(c) && kv == Cells(tokens) && c.ttl > 0
    requires StoreSession(c, identity, session, parent, key, tokens, kv, now, s).1.Some?
    requires tokens <= prompt && |tokens| < |prompt|
    ensures var (c1, r) := StoreSession(c, identity, session, parent, key, tokens, kv, now, s);
            var (_, back) := RestoreSession(c1, identity, session, r.value.generation, prompt, now, true);
            back.Some? && back.value.tokens == tokens && back.value.kv == Cells(tokens)
  {
    StoreSessionKeeps(c, identity, session, parent, key, tokens, kv, now, s);
    var (c1, r) := StoreSession(c, identity, session, parent, key, tokens, kv, now, s);
    var e := CommittedEntry(c, identity, session, parent, key, tokens, kv, now, s);
    PruneIsExact(c1, now, 0, e);
    PruneKeeps(c1, now, 0);
    var p := Prune(c1, now);
    var i := Find(p.entries, ByGeneration(identity, session, r.value.generation), 0);
    var k :| 0 <= k < |p.entries| && p.entries[k] == e;
    UniqueHit(p.entries, ByGeneration(identity, session, r.value.generation), i, k);
  }

  lemma CommittedEntry(
    c: Cache, identity: string, session: string, parent: Option<nat>, key: string,
    tokens: seq<Token>, kv: seq<Cell>, now: int, s: Snapshot) returns (e: Entry)
    requires StoreSession(c, identity, session, parent, key, tokens, kv, now, s).1.Some?
    ensures var (c1, r) := StoreSession(c, identity, session, parent, key, tokens, kv, now, s);
            && e in c1.entries && OfSession(e, identity, session) && e.generation == r.value.generation
            && e.tokens == tokens && e.lastAccess == now
  {
    var c1 := StoreSession(c, identity, session, parent, key, tokens, kv, now, s).0;
    var p := Prune(c, now);
    var i := Find(p.entries, ByCommit(identity, session, key), 0);
    e := if i < |p.entries| then c1.entries[i] else c1.entries[|c1.entries| - 1];
  }
}

/** The cache as an object: loops over `entries` in place, proved equal to `PromptCache`. */
module PromptCacheObject {
  import opened Basics
  import opened KvMemory
  import opened PromptCache
  import Spec = PromptCache

  class PromptStateCache {
    const enabled: bool
    const byteBudget: nat
    const maxEntries: nat
    const ttl: int
    var entries: seq<Entry>
    var bytesUsed: int

    function View(): Cache
      reads this
    {
      Cache(enabled, byteBudget, maxEntries, ttl, entries, bytesUsed)
    }

    constructor (enabled: bool, byteBudget: nat, maxEntries: nat, ttl: int)
      ensures View() == Cache(enabled, byteBudget, maxEntries, ttl, [], 0) && WellKept(View())
    {
      this.enabled, this.byteBudget, this.maxEntries, this.ttl := enabled, byteBudget, maxEntries, ttl;
      entries, bytesUsed := [], 0;
    }

    method Prune(now: int)
      modifies this
      ensures View() == Spec.Prune(old(View()), now)
    {
      var i := 0;
      while i < |entries|
        invariant i <= |entries|
        invariant PruneFrom(View(), now, i) == Spec.Prune(old(View()), now)
        decreases |entries| - i
      {
        if now - entries[i].lastAccess < ttl {
          i := i + 1;
        } else {
          bytesUsed := bytesUsed - entries[i].bytes;
          entries := entries[..i] + entries[i + 1..];
        }
      }
    }

    method FindFirst(q: Query) returns (i: nat)
      ensures i == Find(entries, q, 0)
    {
      i := 0;
      while i < |entries|
        invariant i <= |entries| && Find(entries, q, i) == Find(entries, q, 0)
      {
        if Hits(q, entries[i]) { return; }
        i := i + 1;
      }
    }

    method Restore(identity: string, tokens: seq<Token>, now: int, copies: bool) returns (r: Option<Entry>)
      modifies this
      ensures (View(), r) == Spec.Restore(old(View()), identity, tokens, now, copies)
    {
      if !enabled || |tokens| <= 1 { return None; }
      Prune(now);
      var best := -1;
      for k := 0 to |entries|
        invariant View() == Spec.Prune(old(View()), now)
        invariant best == Best(entries, identity, tokens, k)
      {
        if Eligible(entries[k], identity, tokens) && Improves(entries, best, entries[k]) { best := k; }
      }
      if best < 0 || !copies { return None; }
      r := Some(entries[best]);
      entries := entries[best := entries[best].(lastAccess := now)];
    }

    method Capture(e: Entry, kv: seq<Cell>, s: Snapshot) returns (ok: bool)
      modifies this
      ensures (View(), ok) == Spec.Capture(old(View()), e, kv, s)
    {
      hide Oldest;
      if s.size == 0 || s.size > byteBudget { return false; }
      while entries != [] && (bytesUsed + s.size > byteBudget || |entries| >= maxEntries)
        invariant MakeRoom(View(), s.size) == MakeRoom(old(View()), s.size)
        decreases |entries|
      {
        var victim := Oldest(entries, |entries|);
        bytesUsed := bytesUsed - entries[victim].bytes;
        entries := entries[..victim] + entries[victim + 1..];
      }
      if bytesUsed + s.size > byteBudget || |entries| >= maxEntries { return false; }
      if s.copied == 0 || s.copied > s.size { return false; }
      bytesUsed := bytesUsed + s.copied;
      entries := entries + [e.(kv := kv, bytes := s.copied)];
      return true;
    }

    method Store(identity: string, tokens: seq<Token>, kv: seq<Cell>, now: int, s: Snapshot) returns (ok: bool)
      modifies this
      ensures (View(), ok) == Spec.Store(old(View()), identity, tokens, kv, now, s)
    {
      if !enabled || tokens == [] { return false; }
      Prune(now);
      var i := FindFirst(ByPrefix(identity, tokens));
      if i < |entries| {
        entries := entries[i := entries[i].(lastAccess := now)];
        return true;
      }
      ok := Capture(Entry(PrefixEntry, identity, "", 0, None, "", tokens, [], 0, now), kv, s);
    }

    method RestoreSession(identity: string, session: string, generation: nat, tokens: seq<Token>, now: int, copies: bool)
      returns (r: Option<Entry>)
      modifies this
      ensures (View(), r) == Spec.RestoreSession(old(View()), identity, session, generation, tokens, now, copies)
    {
      if !enabled || |tokens| <= 1 { return None; }
      Prune(now);
      var i := FindFirst(ByGeneration(identity, session, generation));
      if i == |entries| || |entries[i].tokens| > |tokens| - 1 { return None; }
      if !(entries[i].tokens <= tokens) { return None; }
      if !copies { return None; }
      r := Some(entries[i]);
      entries := entries[i := entries[i].(lastAccess := now)];
    }

    method SessionRootAllowed(identity: string, session: string, key: string, now: int) returns (ok: bool)
      modifies this
      ensures (View(), ok) == Spec.SessionRootAllowed(old(View()), identity, session, key, now)
    {
      Prune(now);
      for i := 0 to |entries|
        invariant View() == Spec.Prune(old(View()), now)
        invariant RootFree(entries[..i], identity, session, key)
      {
        if OfSession(entries[i], identity, session) && entries[i].commitKey != key { return false; }
      }
      assert entries[..|entries|] == entries;
      return true;
    }

    /** The second loop of `store_session`: next generation, clone flag, refusal of a second root. */
    method NextCommit(identity: string, session: string, parent: Option<nat>) returns (r: Option<Commit>)
      ensures r == if parent.None? && HasSession(entries, identity, session) then None
                   else Some(Commit(NextGeneration(entries, identity, session, |entries|),
                                    HasChild(entries, identity, session, parent)))
    {
      var generation, clone := 1, false;
      for i := 0 to |entries|
        invariant parent.None? ==> !HasSession(entries[..i], identity, session)
        invariant generation == NextGeneration(entries, identity, session, i)
        invariant clone == HasChild(entries[..i], identity, session, parent)
      {
        assert entries[..i + 1] == entries[..i] + [entries[i]];
        if OfSession(entries[i], identity, session) {
          if parent.None? { return None; }
          if entries[i].generation + 1 > generation { generation := entries[i].generation + 1; }
          if entries[i].parent == parent {
            clone := true;
            assert HasChild(entries[..i + 1], identity, session, parent) by { assert entries[..i + 1][i] == entries[i]; }
          }
        }
      }
      assert entries[..|entries|] == entries;
      return Some(Commit(generation, clone));
    }

    method StoreSession(
      identity: string, session: string, parent: Option<nat>, key: string,
      tokens: seq<Token>, kv: seq<Cell>, now: int, s: Snapshot) returns (r: Option<Commit>)
      modifies this
      ensures (View(), r) == Spec.StoreSession(old(View()), identity, session, parent, key, tokens, kv, now, s)
    {
      if !enabled || tokens == [] { return None; }
      Prune(now);
      var i := FindFirst(ByCommit(identity, session, key));
      if i < |entries| {
        if entries[i].parent != parent || entries[i].tokens != tokens { return None; }
        r := Some(Commit(entries[i].generation, false));
        entries := entries[i := entries[i].(lastAccess := now)];
        return;
      }
      var next := NextCommit(identity, session, parent);
      if next.None? { return None; }
      var ok := Capture(Entry(SessionEntry, identity, session, next.value.generation, parent, key, tokens, [], 0, now), kv, s);
      if !ok { return None; }
      return next;
    }

    method Clear() returns (removed: nat)
      modifies this
      ensures View() == Spec.Clear(old(View())) && removed == |old(entries)|
    {
      removed := |entries|;
      entries, bytesUsed := [], 0;
    }
  }
}
