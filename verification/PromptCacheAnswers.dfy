/** What the prompt cache answers, on the fields of its entries. */
module PromptCacheAnswers {
  // The operations of the prompt cache are searches and loops over its entries. Here each
  // answer is stated without them: on what is live, and on the entries' own fields.

  import opened Basics
  import opened KvMemory
  import opened PromptCache

  /** The entries that satisfy `f`, in their order. */
  function Filtered(s: seq<Entry>, f: Entry -> bool): seq<Entry>
    decreases |s|
  {
    if s == [] then []
    else Filtered(s[..|s| - 1], f) + if f(s[|s| - 1]) then [s[|s| - 1]] else []
  }

  /** Last used less than the time to live ago. */
  function Live(c: Cache, now: int): seq<Entry> { Filtered(c.entries, (e: Entry) => now - e.lastAccess < c.ttl) }

  /** `c1` is `c` with these entries, and its bytes are counted. */
  predicate Left(c: Cache, entries: seq<Entry>, c1: Cache) {
    c1 == Cache(c.enabled, c.byteBudget, c.maxEntries, c.ttl, entries, TotalBytes(entries))
  }

  function Used(s: seq<Entry>, k: nat, now: int): seq<Entry>
    requires k < |s|
  {
    s[k := s[k].(lastAccess := now)]
  }

  // ----- pruning -----

  lemma {:induction false} FilteredAdds(a: seq<Entry>, b: seq<Entry>, f: Entry -> bool)
    ensures Filtered(a + b, f) == Filtered(a, f) + Filtered(b, f)
    decreases |b|
  {
    if b == [] {
      assert a + b == a;
    } else {
      FilteredAdds(a, b[..|b| - 1], f);
      assert (a + b)[..|a + b| - 1] == a + b[..|b| - 1];
    }
  }

  lemma FilteredOne(e: Entry, f: Entry -> bool)
    ensures Filtered([e], f) == if f(e) then [e] else []
  {
    assert [e][..0] == [];
  }

  lemma {:induction false} FilteredWithout(s: seq<Entry>, i: nat, f: Entry -> bool)
    requires i < |s| && !f(s[i])
    ensures Filtered(Without(s, i), f) == Filtered(s, f)
  {
    assert s == s[..i] + [s[i]] + s[i + 1..];
    FilteredAdds(s[..i] + [s[i]], s[i + 1..], f);
    FilteredAdds(s[..i], [s[i]], f);
    FilteredAdds(s[..i], s[i + 1..], f);
    FilteredOne(s[i], f);
  }

  lemma {:induction false} FilteredAll(s: seq<Entry>, f: Entry -> bool)
    requires forall k :: 0 <= k < |s| ==> f(s[k])
    ensures Filtered(s, f) == s
    decreases |s|
  {
    if s != [] { FilteredAll(s[..|s| - 1], f); }
  }

  lemma {:induction false} PruneFilters(c: Cache, now: int, i: nat)
    requires i <= |c.entries| && forall k :: 0 <= k < i ==> !Expired(c, c.entries[k], now)
    ensures PruneFrom(c, now, i).entries == Live(c, now)
    decreases |c.entries| - i
  {
    if i == |c.entries| {
      FilteredAll(c.entries, (e: Entry) => now - e.lastAccess < c.ttl);
    } else if Expired(c, c.entries[i], now) {
      FilteredWithout(c.entries, i, (e: Entry) => now - e.lastAccess < c.ttl);
      assert forall k :: 0 <= k < i ==> Drop(c, i).entries[k] == c.entries[k];
      PruneFilters(Drop(c, i), now, i);
    } else {
      PruneFilters(c, now, i + 1);
    }
  }

  /** Pruning leaves the live entries, in their order. */
  lemma PrunedIsLive(c: Cache, now: int)
    requires WellKept(c)
    ensures Left(c, Live(c, now), Prune(c, now)) && WellKept(Prune(c, now))
  {
    PruneFilters(c, now, 0);
    PruneKeeps(c, now, 0);
  }

  // ----- restore -----

  /** A prefix entry of this identity that the prompt strictly extends. */
  predicate Serves(e: Entry, identity: string, tokens: seq<Token>) {
    e.kind.PrefixEntry? && e.identity == identity && 16 <= |e.tokens| < |tokens| && e.tokens == tokens[..|e.tokens|]
  }

  predicate IsLongest(s: seq<Entry>, k: nat, identity: string, tokens: seq<Token>) {
    && k < |s| && Serves(s[k], identity, tokens)
    && forall j :: 0 <= j < |s| && j != k && Serves(s[j], identity, tokens) ==> |s[j].tokens| < |s[k].tokens|
  }

  /** `restore` answers with the longest live entry the prompt extends, whenever there is one
      and the backend takes it; that entry counts as used now, and nothing else changes. */
  ghost predicate RestoreAnswers(c: Cache, identity: string, tokens: seq<Token>, now: int, copies: bool, c1: Cache, r: Option<Entry>) {
    var live := Live(c, now);
    if !c.enabled || |tokens| <= 1 then c1 == c && r == None
    else
      && (r.Some? <==> copies && exists k :: 0 <= k < |live| && Serves(live[k], identity, tokens))
      && (r.None? ==> Left(c, live, c1))
      && (r.Some? ==>
            exists k: nat :: IsLongest(live, k, identity, tokens) && r.value == live[k] && Left(c, Used(live, k, now), c1)
                             && r.value.kv == Cells(tokens[..|live[k].tokens|]))
  }

  lemma RestoreExactly(c: Cache, identity: string, tokens: seq<Token>, now: int, copies: bool)
    requires WellKept(c)
    ensures var (c1, r) := Restore(c, identity, tokens, now, copies); RestoreAnswers(c, identity, tokens, now, copies, c1, r)
  {
    PrunedIsLive(c, now);
    var p := Prune(c, now);
    BestIsUniqueLongest(p.entries, identity, tokens);
    assert forall k :: 0 <= k < |p.entries| ==> (Serves(p.entries[k], identity, tokens) <==> Eligible(p.entries[k], identity, tokens));
    var best := Best(p.entries, identity, tokens, |p.entries|);
    hide Best;
    hide Live;
    if best >= 0 {
      assert IsLongest(p.entries, best, identity, tokens);
      TouchKeeps(p, best, now);
    }
  }

  // ----- capture -----

  predicate Fits(c: Cache, entries: seq<Entry>, size: nat) { TotalBytes(entries) + size <= c.byteBudget && |entries| < c.maxEntries }

  /** Entry `j` was used before entry `i`, or is filed before it if both were used last at once. */
  predicate Older(s: seq<Entry>, j: nat, i: nat)
    requires i < |s| && j < |s|
  {
    s[j].lastAccess < s[i].lastAccess || (s[j].lastAccess == s[i].lastAccess && j < i)
  }

  /** The last to go of `s` but `kept`, and what the budgets say of letting it stay. */
  predicate LastToGo(c: Cache, s: seq<Entry>, kept: seq<Entry>, size: nat, j: nat) {
    && j < |s| && s[j] !in kept
    && (forall i :: 0 <= i < |s| && i != j && s[i] !in kept ==> Older(s, i, j))
    && !(TotalBytes(kept) + s[j].bytes + size <= c.byteBudget && |kept| + 1 < c.maxEntries)
  }

  /** Whatever went is older than whatever stayed. */
  predicate OlderWent(s: seq<Entry>, kept: seq<Entry>) {
    forall i, j :: 0 <= i < |s| && 0 <= j < |s| && s[i] in kept && s[j] !in kept ==> Older(s, j, i)
  }

  /** Of `s`, `kept` stay: the oldest went, in order of age, and the last to go had to. */
  ghost predicate OldestWent(c: Cache, s: seq<Entry>, kept: seq<Entry>, size: nat) {
    && kept == Filtered(s, e => e in kept)
    && Fits(c, kept, size)
    && OlderWent(s, kept)
    && (kept != s ==> exists j: nat :: LastToGo(c, s, kept, size, j))
  }

  /** `capture` stores exactly if the snapshot has a size, the budgets could ever hold it and
      the backend wrote it; only then, or when the backend failed, the oldest entries go. */
  ghost predicate CaptureAnswers(c: Cache, e: Entry, kv: seq<Cell>, s: Snapshot, c1: Cache, ok: bool) {
    var holds := 0 < s.size <= c.byteBudget && 0 < c.maxEntries;
    && (ok <==> holds && 0 < s.copied <= s.size)
    && if !holds then Left(c, c.entries, c1)
       else exists kept :: && OldestWent(c, c.entries, kept, s.size)
                           && Left(c, kept + if ok then [e.(kv := kv, bytes := s.copied)] else [], c1)
  }

  /** Where position `i` of the entries without `o` is among all of them. */
  function Place(o: nat, i: nat): nat { if i < o then i else i + 1 }

  predicate Distinct(s: seq<Entry>) { forall i, j :: 0 <= i < j < |s| ==> s[i] != s[j] }

  lemma ApartIsDistinct(s: seq<Entry>)
    requires AllApart(s)
    ensures Distinct(s)
  {
  }

  lemma WithoutPlaces(s: seq<Entry>, o: nat)
    requires o < |s|
    ensures |Without(s, o)| == |s| - 1 && forall i :: 0 <= i < |s| - 1 ==> Without(s, o)[i] == s[Place(o, i)]
    ensures Distinct(s) ==> Distinct(Without(s, o)) && s[o] !in Without(s, o)
  {
  }

  lemma {:induction false} FirstOldest(s: seq<Entry>, n: nat)
    requires 0 < n <= |s|
    ensures forall k :: 0 <= k < n && k != Oldest(s, n) ==> Older(s, Oldest(s, n), k)
    decreases n
  {
    if n > 1 { FirstOldest(s, n - 1); }
  }

  lemma {:induction false} FilteredSubset(s: seq<Entry>, f: Entry -> bool, e: Entry)
    ensures e in Filtered(s, f) <==> e in s && f(e)
    decreases |s|
  {
    if s != [] {
      FilteredSubset(s[..|s| - 1], f, e);
      assert s == s[..|s| - 1] + [s[|s| - 1]];
    }
  }

  /** If the oldest of the rest went, with the oldest of all gone first, the oldest went. */
  lemma OneMoreWent(c: Cache, s: seq<Entry>, o: nat, kept: seq<Entry>, size: nat)
    requires o < |s| && Distinct(s) && (forall k :: 0 <= k < |s| && k != o ==> Older(s, o, k))
    requires OldestWent(c, Without(s, o), kept, size) && !Fits(c, s, size)
    requires TotalBytes(s) == TotalBytes(Without(s, o)) + s[o].bytes
    ensures OldestWent(c, s, kept, size)
  {
    hide Older;
    hide TotalBytes;
    hide Fits;
    hide LastToGo;
    hide OlderWent;
    var d := Without(s, o);
    WithoutPlaces(s, o);
    FilteredSubset(d, e => e in kept, s[o]);
    assert s[o] !in kept;
    FilteredWithout(s, o, e => e in kept);
    hide Filtered;
    OlderStillWent(s, o, kept);
    hide Distinct;
    if kept == d {
      OnlyOneWent(c, s, o, size);
      hide Without;
      assert LastToGo(c, s, kept, size, o);
    } else {
      hide Without;
      var m: nat :| LastToGo(c, d, kept, size, m);
      LastStaysLast(c, s, o, kept, size, m);
      assert LastToGo(c, s, kept, size, Place(o, m));
    }
  }

  lemma OlderStillWent(s: seq<Entry>, o: nat, kept: seq<Entry>)
    requires o < |s| && (forall k :: 0 <= k < |s| && k != o ==> Older(s, o, k))
    requires OlderWent(Without(s, o), kept) && s[o] !in kept
    ensures OlderWent(s, kept)
  {
    hide Older;
    hide Without;
    forall i, j | 0 <= i < |s| && 0 <= j < |s| && s[i] in kept && s[j] !in kept
      ensures Older(s, j, i)
    {
      if j != o { OlderPlaces(s, o, j, i); }
    }
  }

  lemma OnlyOneWent(c: Cache, s: seq<Entry>, o: nat, size: nat)
    requires o < |s| && Distinct(s) && !Fits(c, s, size)
    requires TotalBytes(s) == TotalBytes(Without(s, o)) + s[o].bytes
    ensures LastToGo(c, s, Without(s, o), size, o)
  {
    hide TotalBytes;
    hide Older;
    WithoutPlaces(s, o);
    forall i | 0 <= i < |s| && i != o
      ensures s[i] in Without(s, o)
    {
      assert s[i] == Without(s, o)[if i < o then i else i - 1];
    }
  }

  lemma LastStaysLast(c: Cache, s: seq<Entry>, o: nat, kept: seq<Entry>, size: nat, m: nat)
    requires o < |s| && (forall k :: 0 <= k < |s| && k != o ==> Older(s, o, k)) && LastToGo(c, Without(s, o), kept, size, m)
    ensures LastToGo(c, s, kept, size, Place(o, m))
  {
    hide TotalBytes;
    hide Older;
    WithoutPlaces(s, o);
    var j := Place(o, m);
    forall i | 0 <= i < |s| && i != j && s[i] !in kept
      ensures Older(s, i, j)
    {
      if i != o { OlderPlaces(s, o, i, j); }
    }
  }

  lemma OlderPlaces(s: seq<Entry>, o: nat, j: nat, i: nat)
    requires o < |s| && i < |s| && j < |s| && i != o && j != o
    ensures var d := Without(s, o);
            var i', j' := if i < o then i else i - 1, if j < o then j else j - 1;
            i' < |d| && j' < |d| && d[i'] == s[i] && d[j'] == s[j] && (Older(d, j', i') <==> Older(s, j, i))
  {
  }

  lemma DropBytes(c: Cache, i: nat)
    requires WellKept(c) && i < |c.entries|
    ensures WellKept(Drop(c, i)) && TotalBytes(c.entries) == TotalBytes(Without(c.entries, i)) + c.entries[i].bytes
  {
    DropKeeps(c, i);
  }

  lemma {:induction false} RoomMade(c: Cache, size: nat)
    requires WellKept(c) && size <= c.byteBudget && 0 < c.maxEntries
    ensures OldestWent(c, c.entries, MakeRoom(c, size).entries, size)
    ensures Left(c, MakeRoom(c, size).entries, MakeRoom(c, size))
    decreases |c.entries|
  {
    if c.entries != [] && Overfull(c, size) {
      hide OldestWent;
      var o := Oldest(c.entries, |c.entries|);
      FirstOldest(c.entries, |c.entries|);
      DropBytes(c, o);
      ApartIsDistinct(c.entries);
      RoomMade(Drop(c, o), size);
      var kept := MakeRoom(Drop(c, o), size).entries;
      SameBudget(c, Drop(c, o), Without(c.entries, o), kept, size);
      OneMoreWent(c, c.entries, o, kept, size);
    } else {
      FilteredAll(c.entries, e => e in c.entries);
    }
  }

  lemma SameBudget(c: Cache, d: Cache, s: seq<Entry>, kept: seq<Entry>, size: nat)
    requires d.byteBudget == c.byteBudget && d.maxEntries == c.maxEntries && OldestWent(d, s, kept, size)
    ensures OldestWent(c, s, kept, size)
  {
    hide Older;
    hide TotalBytes;
    if kept != s {
      var j: nat :| LastToGo(d, s, kept, size, j);
      assert LastToGo(c, s, kept, size, j);
    }
  }

  lemma CaptureExactly(c: Cache, e: Entry, kv: seq<Cell>, s: Snapshot)
    requires WellKept(c)
    ensures var (c1, ok) := Capture(c, e, kv, s); CaptureAnswers(c, e, kv, s, c1, ok)
  {
    hide TotalBytes;
    hide AllApart;
    hide AllFaithful;
    if 0 < s.size <= c.byteBudget {
      if c.maxEntries == 0 {
        assert c.entries == [];
      } else {
        RoomMade(c, s.size);
        var kept := MakeRoom(c, s.size).entries;
        assert Fits(c, kept, s.size);
        hide OldestWent;
        hide MakeRoom;
        OneAdded(kept, e.(kv := kv, bytes := s.copied));
        assert kept + [] == kept;
      }
    }
  }

  lemma OneAdded(entries: seq<Entry>, e: Entry)
    ensures TotalBytes(entries + [e]) == TotalBytes(entries) + e.bytes
  {
    assert (entries + [e])[..|entries|] == entries;
  }

  // ----- store -----

  /** `store` refreshes the live entry filed under the same identity and tokens, and captures a
      new one only if there is none. */
  ghost predicate StoreAnswers(
    c: Cache, identity: string, tokens: seq<Token>, kv: seq<Cell>, now: int, s: Snapshot, c1: Cache, ok: bool)
  {
    var live := Live(c, now);
    if !c.enabled || tokens == [] then c1 == c && !ok
    else if exists k :: 0 <= k < |live| && live[k].kind.PrefixEntry? && live[k].identity == identity && live[k].tokens == tokens then
      ok && exists k: nat :: k < |live| && live[k].kind.PrefixEntry? && live[k].identity == identity && live[k].tokens == tokens
                             && Left(c, Used(live, k, now), c1)
    else
      CaptureAnswers(c.(entries := live, bytesUsed := TotalBytes(live)),
                     Entry(PrefixEntry, identity, "", 0, None, "", tokens, [], 0, now), kv, s, c1, ok)
  }

  lemma StoreExactly(c: Cache, identity: string, tokens: seq<Token>, kv: seq<Cell>, now: int, s: Snapshot)
    requires WellKept(c)
    ensures var (c1, ok) := Store(c, identity, tokens, kv, now, s); StoreAnswers(c, identity, tokens, kv, now, s, c1, ok)
  {
    hide CaptureAnswers;
    hide Capture;
    PrunedIsLive(c, now);
    var p := Prune(c, now);
    var live := Live(c, now);
    var i := Find(p.entries, ByPrefix(identity, tokens), 0);
    if i < |live| {
      TouchKeeps(p, i, now);
    } else {
      assert forall k :: 0 <= k < |live| ==> !Hits(ByPrefix(identity, tokens), live[k]);
      CaptureExactly(p, Entry(PrefixEntry, identity, "", 0, None, "", tokens, [], 0, now), kv, s);
    }
  }

  // ----- sessions -----

  predicate InSession(e: Entry, identity: string, session: string) {
    e.kind.SessionEntry? && e.identity == identity && e.sessionId == session
  }

  /** `restore_session` answers with the live entry of that very generation, exactly if the prompt
      strictly extends it and the backend takes it. */
  ghost predicate RestoreSessionAnswers(
    c: Cache, identity: string, session: string, generation: nat, tokens: seq<Token>, now: int, copies: bool, c1: Cache, r: Option<Entry>)
  {
    var live := Live(c, now);
    if !c.enabled || |tokens| <= 1 then c1 == c && r == None
    else
      && (r.None? ==> Left(c, live, c1))
      && (r.Some? <==> copies && exists k :: && 0 <= k < |live| && InSession(live[k], identity, session)
                                              && live[k].generation == generation && Extends(tokens, live[k].tokens))
      && (r.Some? ==> exists k: nat :: && k < |live| && InSession(live[k], identity, session) && live[k].generation == generation
                                       && Extends(tokens, live[k].tokens) && r.value == live[k] && Left(c, Used(live, k, now), c1)
                                       && r.value.kv == Cells(tokens[..|live[k].tokens|]))
  }

  predicate Extends(tokens: seq<Token>, prior: seq<Token>) { |prior| < |tokens| && tokens[..|prior|] == prior }

  lemma RestoreSessionExactly(
    c: Cache, identity: string, session: string, generation: nat, tokens: seq<Token>, now: int, copies: bool)
    requires WellKept(c)
    ensures var (c1, r) := RestoreSession(c, identity, session, generation, tokens, now, copies);
            RestoreSessionAnswers(c, identity, session, generation, tokens, now, copies, c1, r)
  {
    hide Live;
    PrunedIsLive(c, now);
    var p := Prune(c, now);
    var live := Live(c, now);
    var q := ByGeneration(identity, session, generation);
    var i := Find(p.entries, q, 0);
    forall k: nat | k < |live| && InSession(live[k], identity, session) && live[k].generation == generation
      ensures k == i
    {
      if i < |live| { UniqueHit(live, q, i, k); }
    }
    if i < |live| {
      TouchKeeps(p, i, now);
      assert live[i].tokens <= tokens && |live[i].tokens| < |tokens| <==> Extends(tokens, live[i].tokens);
    }
  }

  /** A root is allowed exactly if every live entry of the session has this commit key. */
  lemma RootAllowedExactly(c: Cache, identity: string, session: string, key: string, now: int)
    requires WellKept(c)
    ensures var (c1, ok) := SessionRootAllowed(c, identity, session, key, now);
            && Left(c, Live(c, now), c1)
            && (ok <==> !exists e :: e in Live(c, now) && InSession(e, identity, session) && e.commitKey != key)
  {
    PrunedIsLive(c, now);
    hide Live;
    var live := Live(c, now);
    if e :| e in live && InSession(e, identity, session) && e.commitKey != key {
      var k :| 0 <= k < |live| && live[k] == e;
      assert OfSession(live[k], identity, session);
    }
  }

  /** The generation after the latest live one of the session. */
  ghost predicate IsNextGeneration(live: seq<Entry>, identity: string, session: string, g: nat) {
    && g >= 1
    && (forall e :: e in live && InSession(e, identity, session) ==> e.generation < g)
    && (g == 1 || exists e :: e in live && InSession(e, identity, session) && e.generation + 1 == g)
  }

  lemma {:induction false} NextGenerationExactly(entries: seq<Entry>, identity: string, session: string, n: nat)
    requires n <= |entries|
    ensures IsNextGeneration(entries[..n], identity, session, NextGeneration(entries, identity, session, n))
    decreases n
  {
    if n > 0 {
      NextGenerationExactly(entries, identity, session, n - 1);
      assert entries[..n] == entries[..n - 1] + [entries[n - 1]];
    }
  }

  /** A commit with the key of live entry `k` is answered as before, or refused if it was another. */
  predicate CommitsAgain(
    c: Cache, live: seq<Entry>, k: nat, parent: Option<nat>, tokens: seq<Token>, now: int, c1: Cache, r: Option<Commit>)
    requires k < |live|
  {
    if live[k].parent == parent && live[k].tokens == tokens
    then r == Some(Commit(live[k].generation, false)) && Left(c, Used(live, k, now), c1)
    else r == None && Left(c, live, c1)
  }

  /** A new commit is captured as the next generation, a clone exactly if its parent has a child
      already. */
  ghost predicate CommitsNext(
    c: Cache, live: seq<Entry>, identity: string, session: string, parent: Option<nat>, key: string,
    tokens: seq<Token>, kv: seq<Cell>, now: int, s: Snapshot, c1: Cache, r: Option<Commit>)
  {
    exists g: nat ::
      && IsNextGeneration(live, identity, session, g)
      && CaptureAnswers(c.(entries := live, bytesUsed := TotalBytes(live)),
                        Entry(SessionEntry, identity, session, g, parent, key, tokens, [], 0, now), kv, s, c1, r.Some?)
      && (r.Some? ==>
            && r.value.generation == g
            && (r.value.copyOnWrite <==> parent.Some? && exists e :: e in live && InSession(e, identity, session) && e.parent == parent))
  }

  /** `store_session`: a commit made before is answered as before, or refused if it was another;
      a second root is refused; anything else is captured as the next generation. */
  ghost predicate StoreSessionAnswers(
    c: Cache, identity: string, session: string, parent: Option<nat>, key: string,
    tokens: seq<Token>, kv: seq<Cell>, now: int, s: Snapshot, c1: Cache, r: Option<Commit>)
  {
    var live := Live(c, now);
    if !c.enabled || tokens == [] then c1 == c && r == None
    else if exists e :: e in live && InSession(e, identity, session) && e.commitKey == key then
      exists k: nat ::
        k < |live| && InSession(live[k], identity, session) && live[k].commitKey == key && CommitsAgain(c, live, k, parent, tokens, now, c1, r)
    else if parent.None? && exists e :: e in live && InSession(e, identity, session) then r == None && Left(c, live, c1)
    else CommitsNext(c, live, identity, session, parent, key, tokens, kv, now, s, c1, r)
  }

  lemma StoreSessionExactly(
    c: Cache, identity: string, session: string, parent: Option<nat>, key: string,
    tokens: seq<Token>, kv: seq<Cell>, now: int, s: Snapshot)
    requires WellKept(c)
    ensures var (c1, r) := StoreSession(c, identity, session, parent, key, tokens, kv, now, s);
            StoreSessionAnswers(c, identity, session, parent, key, tokens, kv, now, s, c1, r)
  {
    hide Live;
    hide CommitsAgain;
    hide CommitsNext;
    PrunedIsLive(c, now);
    hide WellKept;
    var live := Live(c, now);
    SessionSearches(live, identity, session, parent, key);
    var i := Find(live, ByCommit(identity, session, key), 0);
    var (c1, r) := StoreSession(c, identity, session, parent, key, tokens, kv, now, s);
    if c.enabled && tokens != [] {
      if i < |live| {
        hide StoreSession;
        AgainExactly(c, live, identity, session, parent, key, tokens, kv, now, s);
        assert InSession(live[i], identity, session) && CommitsAgain(c, live, i, parent, tokens, now, c1, r);
      } else if !(parent.None? && HasSession(live, identity, session)) {
        hide StoreSession;
        NextExactly(c, live, identity, session, parent, key, tokens, kv, now, s);
      }
    }
  }

  lemma {:induction false} AgainExactly(
    c: Cache, live: seq<Entry>, identity: string, session: string, parent: Option<nat>, key: string,
    tokens: seq<Token>, kv: seq<Cell>, now: int, s: Snapshot)
    requires Left(c, live, Prune(c, now)) && WellKept(Prune(c, now)) && c.enabled && tokens != []
    requires Find(live, ByCommit(identity, session, key), 0) < |live|
    ensures var (c1, r) := StoreSession(c, identity, session, parent, key, tokens, kv, now, s);
            CommitsAgain(c, live, Find(live, ByCommit(identity, session, key), 0), parent, tokens, now, c1, r)
  {
    hide Capture;
    TouchKeeps(Prune(c, now), Find(live, ByCommit(identity, session, key), 0), now);
    hide Prune;
  }

  lemma {:induction false} NextExactly(
    c: Cache, live: seq<Entry>, identity: string, session: string, parent: Option<nat>, key: string,
    tokens: seq<Token>, kv: seq<Cell>, now: int, s: Snapshot)
    requires Left(c, live, Prune(c, now)) && WellKept(Prune(c, now)) && c.enabled && tokens != []
    requires Find(live, ByCommit(identity, session, key), 0) == |live| && !(parent.None? && HasSession(live, identity, session))
    ensures var (c1, r) := StoreSession(c, identity, session, parent, key, tokens, kv, now, s);
            CommitsNext(c, live, identity, session, parent, key, tokens, kv, now, s, c1, r)
  {
    hide Capture;
    hide CaptureAnswers;
    hide IsNextGeneration;
    hide Find;
    var g := NextGeneration(live, identity, session, |live|);
    NextGenerationExactly(live, identity, session, |live|);
    assert live[..|live|] == live;
    CaptureExactly(Prune(c, now), Entry(SessionEntry, identity, session, g, parent, key, tokens, [], 0, now), kv, s);
    SessionSearches(live, identity, session, parent, key);
    hide WellKept;
    hide Prune;
    hide NextGeneration;
    hide HasSession;
    hide HasChild;
  }

  /** What the searches for a commit, a root and a child find. */
  lemma SessionSearches(live: seq<Entry>, identity: string, session: string, parent: Option<nat>, key: string)
    ensures Find(live, ByCommit(identity, session, key), 0) < |live| <==>
              exists e :: e in live && InSession(e, identity, session) && e.commitKey == key
    ensures HasSession(live, identity, session) <==> exists e :: e in live && InSession(e, identity, session)
    ensures HasChild(live, identity, session, parent) <==>
              parent.Some? && exists e :: e in live && InSession(e, identity, session) && e.parent == parent
  {
    var i := Find(live, ByCommit(identity, session, key), 0);
    assert forall k :: 0 <= k < |live| ==> (OfSession(live[k], identity, session) <==> InSession(live[k], identity, session));
    assert forall k :: 0 <= k < i ==> !Hits(ByCommit(identity, session, key), live[k]);
    if i < |live| { assert live[i] in live; }
    if e :| e in live && InSession(e, identity, session) && e.commitKey == key {
      var k :| 0 <= k < |live| && live[k] == e;
    }
  }
}
