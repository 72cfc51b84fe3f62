/** The books of the lease cache, which every operation keeps: the bytes in use, the index of
    the entries that are not clones, and the counters. Also what pruning and eviction do
    exactly: which entries go, in which order, how many, and when making room fails. Removing
    an entry never touches a pinned one, so whoever holds a lease need not look at anything
    in this module. */
module LeaseBooks {
  import opened Basics
  import opened LeaseCache

  // ----- the invariant -----

  function TotalBytes(entries: seq<Entry>): nat
    decreases |entries|
  {
    if entries == [] then 0 else TotalBytes(entries[..|entries| - 1]) + |entries[|entries| - 1].payload|
  }

  predicate DistinctIds(entries: seq<Entry>) { forall i, j :: 0 <= i < j < |entries| ==> entries[i].id != entries[j].id }

  /** The index names exactly the entries that are not clones. */
  ghost predicate IndexOk(c: Cache) {
    && (forall i :: 0 <= i < |c.entries| && !c.entries[i].ephemeral ==>
          (c.entries[i].key, c.entries[i].scope) in c.index && c.index[(c.entries[i].key, c.entries[i].scope)] == c.entries[i].id)
    && (forall k :: k in c.index ==> exists i :: IsIndexed(c, i, k))
  }

  predicate IsIndexed(c: Cache, i: nat, k: (Key, Scope)) {
    && i < |c.entries| && !c.entries[i].ephemeral && (c.entries[i].key, c.entries[i].scope) == k
    && k in c.index && c.index[k] == c.entries[i].id
  }

  predicate EntryOk(e: Entry, nextId: nat) { e.id < nextId && (e.ephemeral ==> e.refcount > 0) }

  /** Everything but the bounds: sums, index, counters. */
  ghost predicate BooksOk(c: Cache) {
    && c.bytesUsed == TotalBytes(c.entries) && DistinctIds(c.entries) && IndexOk(c)
    && c.insertions == c.evictions + c.invalidations + |c.index|
    && forall i :: 0 <= i < |c.entries| ==> EntryOk(c.entries[i], c.nextId)
  }

  ghost predicate CacheOk(l: Limits, c: Cache) { BooksOk(c) && c.bytesUsed <= l.byteBudget && |c.entries| <= l.maxEntries }

  lemma {:induction false} BytesWithout(entries: seq<Entry>, i: nat)
    requires i < |entries|
    ensures TotalBytes(Without(entries, i)) + |entries[i].payload| == TotalBytes(entries)
    decreases |entries|
  {
    var n := |entries| - 1;
    if i < n {
      BytesWithout(entries[..n], i);
      assert Without(entries, i)[..n - 1] == Without(entries[..n], i);
    } else {
      assert Without(entries, i) == entries[..n];
    }
  }

  lemma {:induction false} BytesReplaced(entries: seq<Entry>, i: nat, e: Entry)
    requires i < |entries| && |e.payload| == |entries[i].payload|
    ensures TotalBytes(entries[i := e]) == TotalBytes(entries)
    decreases |entries|
  {
    var n := |entries| - 1;
    if i < n {
      BytesReplaced(entries[..n], i, e);
      assert entries[i := e][..n] == entries[..n][i := e];
    } else {
      assert entries[i := e][..n] == entries[..n];
    }
  }

  /** The old place of the entry now at `j`. */
  function Place(i: nat, j: nat): nat { if j < i then j else j + 1 }

  lemma WithoutAt<T>(s: seq<T>, i: nat)
    requires i < |s|
    ensures forall j :: 0 <= j < |s| - 1 ==> Without(s, i)[j] == s[Place(i, j)]
  {
  }

  lemma OtherKeys(c: Cache, i: nat, j: nat)
    requires IndexOk(c) && DistinctIds(c.entries) && i < |c.entries| && j < |c.entries| && i != j
    requires !c.entries[i].ephemeral && !c.entries[j].ephemeral
    ensures (c.entries[j].key, c.entries[j].scope) != (c.entries[i].key, c.entries[i].scope)
  {
    assert c.entries[i].id != c.entries[j].id;
  }

  lemma {:induction false} RemoveKeepsNamed(c: Cache, i: nat, j: nat)
    requires IndexOk(c) && DistinctIds(c.entries) && i < |c.entries| && j < |c.entries| && i != j && !c.entries[j].ephemeral
    ensures var k := (c.entries[j].key, c.entries[j].scope); k in Remove(c, i).index && Remove(c, i).index[k] == c.entries[j].id
  {
    if !c.entries[i].ephemeral { OtherKeys(c, i, j); }
  }

  lemma {:induction false} RemoveKeepsNames(c: Cache, i: nat, k: (Key, Scope))
    requires IndexOk(c) && i < |c.entries| && k in Remove(c, i).index
    ensures exists j :: IsIndexed(Remove(c, i), j, k)
  {
    WithoutAt(c.entries, i);
    var j: nat :| IsIndexed(c, j, k);
    assert j != i;
    assert IsIndexed(Remove(c, i), if j < i then j else j - 1, k);
  }

  lemma {:induction false} RemoveIndex(c: Cache, i: nat)
    requires IndexOk(c) && DistinctIds(c.entries) && i < |c.entries|
    ensures IndexOk(Remove(c, i))
    ensures |Remove(c, i).index| == |c.index| - if c.entries[i].ephemeral then 0 else 1
  {
    var r := Remove(c, i);
    var e := c.entries[i];
    forall j | 0 <= j < |r.entries| && !r.entries[j].ephemeral
      ensures (r.entries[j].key, r.entries[j].scope) in r.index && r.index[(r.entries[j].key, r.entries[j].scope)] == r.entries[j].id
    {
      WithoutAt(c.entries, i);
      RemoveKeepsNamed(c, i, Place(i, j));
    }
    forall k | k in r.index
      ensures exists j :: IsIndexed(r, j, k)
    {
      RemoveKeepsNames(c, i, k);
    }
    if !e.ephemeral {
      assert r.index.Keys == c.index.Keys - {(e.key, e.scope)};
      assert |r.index| == |r.index.Keys| && |c.index| == |c.index.Keys|;
    }
  }

  lemma {:induction false} RemoveDistinct(entries: seq<Entry>, i: nat)
    requires DistinctIds(entries) && i < |entries|
    ensures DistinctIds(Without(entries, i))
  {
    WithoutAt(entries, i);
  }

  /** Removing an entry that is not a clone keeps the books when an eviction or an invalidation
      is counted for it. */
  lemma {:induction false} RemoveBooks(c: Cache, i: nat, r: Cache)
    requires BooksOk(c) && i < |c.entries| && !c.entries[i].ephemeral
    requires r == Evict(c, i) || r == Invalidated(c, i)
    ensures BooksOk(r) && r.bytesUsed <= c.bytesUsed
  {
    BytesWithout(c.entries, i);
    RemoveIndex(c, i);
    RemoveDistinct(c.entries, i);
    WithoutAt(c.entries, i);
    SameIndex(Remove(c, i), r);
  }

  lemma SameIndex(a: Cache, b: Cache)
    requires a.entries == b.entries && a.index == b.index && IndexOk(a)
    ensures IndexOk(b)
  {
    forall k | k in b.index
      ensures exists i :: IsIndexed(b, i, k)
    {
      var i :| IsIndexed(a, i, k);
      assert IsIndexed(b, i, k);
    }
  }

  lemma UnpinnedIsIndexed(c: Cache, i: nat)
    requires BooksOk(c) && i < |c.entries| && c.entries[i].refcount == 0
    ensures !c.entries[i].ephemeral
  {
    assert EntryOk(c.entries[i], c.nextId);
  }

  // ----- pinned entries stay -----

  /** Entries the caller may still be reading. */
  function Pinned(entries: seq<Entry>): seq<Entry>
    decreases |entries|
  {
    if entries == [] then []
    else
      var init, last := Pinned(entries[..|entries| - 1]), entries[|entries| - 1];
      if last.refcount > 0 then init + [last] else init
  }

  lemma {:induction false} PinnedWithout(entries: seq<Entry>, i: nat)
    requires i < |entries| && entries[i].refcount == 0
    ensures Pinned(Without(entries, i)) == Pinned(entries)
    decreases |entries|
  {
    var n := |entries| - 1;
    if i < n {
      PinnedWithout(entries[..n], i);
      assert Without(entries, i)[..n - 1] == Without(entries[..n], i);
    } else {
      assert Without(entries, i) == entries[..n];
    }
  }

  lemma {:induction false} AllPinned(entries: seq<Entry>)
    requires Victim(entries).None?
    ensures Pinned(entries) == entries
    decreases |entries|
  {
    if entries != [] {
      AllPinned(entries[..|entries| - 1]);
      assert entries[..|entries| - 1] + [entries[|entries| - 1]] == entries;
    }
  }

  lemma {:induction false} PruneFromOk(c: Cache, now: real, i: nat)
    requires BooksOk(c) && i <= |c.entries|
    ensures var r := PruneFrom(c, now, i);
            && BooksOk(r) && r.bytesUsed <= c.bytesUsed && |r.entries| <= |c.entries| && r.nextId == c.nextId
            && Pinned(r.entries) == Pinned(c.entries)
    decreases |c.entries| - i
  {
    hide BooksOk;
    if i < |c.entries| {
      if IsExpired(c.entries[i], now) {
        UnpinnedIsIndexed(c, i);
        RemoveBooks(c, i, Evict(c, i));
        PinnedWithout(c.entries, i);
        PruneFromOk(Evict(c, i), now, i);
      } else {
        PruneFromOk(c, now, i + 1);
      }
    }
  }

  lemma {:induction false} WithoutMembers(entries: seq<Entry>, i: nat, e: Entry)
    requires i < |entries|
    ensures e in Without(entries, i) ==> e in entries
    ensures e in entries && e != entries[i] ==> e in Without(entries, i)
  {
    assert entries == entries[..i] + [entries[i]] + entries[i + 1..];
  }

  /** After pruning exactly the unexpired entries are left. */
  lemma {:induction false} PruneIsExact(c: Cache, now: real, i: nat, e: Entry)
    requires i <= |c.entries| && forall k :: 0 <= k < i ==> !IsExpired(c.entries[k], now)
    ensures e in PruneFrom(c, now, i).entries <==> e in c.entries && !IsExpired(e, now)
    decreases |c.entries| - i
  {
    hide IsExpired;
    if i < |c.entries| {
      if IsExpired(c.entries[i], now) {
        WithoutAt(c.entries, i);
        WithoutMembers(c.entries, i, e);
        PruneIsExact(Evict(c, i), now, i, e);
      } else {
        PruneIsExact(c, now, i + 1, e);
      }
    }
  }

  // ----- eviction is exact -----

  lemma {:induction false} VictimIsOldest(entries: seq<Entry>, k: nat)
    requires k < |entries| && entries[k].refcount == 0
    ensures Victim(entries).Some? && !Older(entries[k], entries[Victim(entries).value])
    decreases |entries|
  {
    var n := |entries| - 1;
    if k < n { VictimIsOldest(entries[..n], k); }
  }

  /** Would the pinned entries alone leave room? */
  predicate PinnedFit(l: Limits, entries: seq<Entry>, size: nat) {
    TotalBytes(Pinned(entries)) + size <= l.byteBudget && |Pinned(entries)| < l.maxEntries
  }

  lemma {:induction false} AddedBytes(entries: seq<Entry>, e: Entry)
    ensures TotalBytes(entries + [e]) == TotalBytes(entries) + |e.payload|
  {
    assert (entries + [e])[..|entries|] == entries;
  }

  lemma {:induction false} PinnedIsLess(entries: seq<Entry>)
    ensures TotalBytes(Pinned(entries)) <= TotalBytes(entries) && |Pinned(entries)| <= |entries|
    decreases |entries|
  {
    if entries != [] {
      hide TotalBytes;
      hide Pinned;
      var init, last := entries[..|entries| - 1], entries[|entries| - 1];
      PinnedIsLess(init);
      AddedBytes(Pinned(init), last);
      BytesAdd(init, last);
      assert init + [last] == entries;
    }
  }

  /** Making room fails precisely when the pinned entries alone are in the way; then they are
      all that is left. It never touches a pinned entry. */
  lemma {:induction false} MakeRoomOk(l: Limits, c: Cache, size: nat)
    requires BooksOk(c)
    ensures var (r, ok) := MakeRoom(l, c, size);
            && BooksOk(r) && r.bytesUsed <= c.bytesUsed && |r.entries| <= |c.entries| && r.nextId == c.nextId
            && Pinned(r.entries) == Pinned(c.entries)
            && (ok <==> PinnedFit(l, c.entries, size)) && (ok ==> Fits(l, r, size))
            && (!ok ==> r.entries == Pinned(c.entries))
    decreases |c.entries|
  {
    hide IndexOk;
    PinnedIsLess(c.entries);
    if !Fits(l, c, size) {
      var v := Victim(c.entries);
      if v.None? {
        AllPinned(c.entries);
      } else {
        UnpinnedIsIndexed(c, v.value);
        RemoveBooks(c, v.value, Evict(c, v.value));
        PinnedWithout(c.entries, v.value);
        MakeRoomOk(l, Evict(c, v.value), size);
      }
    }
  }

  /** The cache after its `n` least recently used unpinned entries are gone. */
  function EvictOldest(c: Cache, n: nat): Cache
    decreases n
  {
    var v := Victim(c.entries);
    if n == 0 || v.None? then c else EvictOldest(Evict(c, v.value), n - 1)
  }

  function EvictionsNeeded(l: Limits, c: Cache, size: nat): nat
    decreases |c.entries|
  {
    var v := Victim(c.entries);
    if Fits(l, c, size) || v.None? then 0 else 1 + EvictionsNeeded(l, Evict(c, v.value), size)
  }

  /** Exactly as many evictions as needed: one fewer would not have fitted. */
  lemma {:induction false} MakeRoomIsMinimal(l: Limits, c: Cache, size: nat, m: nat)
    ensures MakeRoom(l, c, size).0 == EvictOldest(c, EvictionsNeeded(l, c, size))
    ensures m < EvictionsNeeded(l, c, size) ==> !Fits(l, EvictOldest(c, m), size)
    decreases |c.entries|
  {
    var v := Victim(c.entries);
    if !Fits(l, c, size) && v.Some? { MakeRoomIsMinimal(l, Evict(c, v.value), size, if m > 0 then m - 1 else 0); }
  }

  predicate InLruOrder(before: seq<Entry>, after: seq<Entry>) {
    && (forall u :: u in after ==> u in before)
    && (forall e, u :: e in before && e !in after && u in after && u.refcount == 0 ==>
          e.refcount == 0 && (e.lastAccess < u.lastAccess || (e.lastAccess == u.lastAccess && e.createdAt <= u.createdAt)))
    && (forall e :: e in before && e !in after ==> e.refcount == 0)
  }

  lemma {:induction false} OneInLruOrder(entries: seq<Entry>, v: nat)
    requires Victim(entries) == Some(v)
    ensures InLruOrder(entries, Without(entries, v))
  {
    WithoutAt(entries, v);
    var after := Without(entries, v);
    forall u | u in after
      ensures u in entries && (u.refcount == 0 ==> !Older(u, entries[v]))
    {
      var j :| 0 <= j < |after| && after[j] == u;
      var k := Place(v, j);
      assert entries[k] == u;
      if u.refcount == 0 { VictimIsOldest(entries, k); }
    }
    forall e | e in entries
      ensures e in after || e == entries[v]
    {
      var k :| 0 <= k < |entries| && entries[k] == e;
      if k != v { assert after[if k < v then k else k - 1] == e; }
    }
  }

  lemma LruTransitive(a: seq<Entry>, b: seq<Entry>, c: seq<Entry>)
    requires InLruOrder(a, b) && InLruOrder(b, c)
    ensures InLruOrder(a, c)
  {
  }

  /** Whatever is evicted is unpinned and no more recently used than any unpinned entry kept. */
  lemma {:induction false} EvictsOldestFirst(l: Limits, c: Cache, size: nat)
    ensures InLruOrder(c.entries, MakeRoom(l, c, size).0.entries)
    decreases |c.entries|
  {
    hide InLruOrder;
    var v := Victim(c.entries);
    if !Fits(l, c, size) && v.Some? {
      var c1 := Evict(c, v.value);
      OneInLruOrder(c.entries, v.value);
      EvictsOldestFirst(l, c1, size);
      LruTransitive(c.entries, c1.entries, MakeRoom(l, c1, size).0.entries);
    } else {
      SameIsInOrder(c.entries);
    }
  }

  lemma SameIsInOrder(entries: seq<Entry>)
    ensures InLruOrder(entries, entries)
  {
  }

  // ----- the operations keep the books and the bounds -----

  lemma {:induction false} PruneOk(l: Limits, c: Cache, now: real)
    requires CacheOk(l, c)
    ensures CacheOk(l, Prune(c, now)) && Pinned(Prune(c, now).entries) == Pinned(c.entries) && Prune(c, now).nextId == c.nextId
  {
    hide BooksOk;
    PruneFromOk(c, now, 0);
  }

  lemma {:induction false} BytesAdd(entries: seq<Entry>, e: Entry)
    ensures TotalBytes(entries + [e]) == TotalBytes(entries) + |e.payload|
    ensures Pinned(entries + [e]) == if e.refcount > 0 then Pinned(entries) + [e] else Pinned(entries)
  {
    AddedBytes(entries, e);
    assert (entries + [e])[..|entries|] == entries;
  }

  lemma {:induction false} AddIndexed(c: Cache, e: Entry, k: (Key, Scope))
    requires IndexOk(c) && k !in c.index && k == (e.key, e.scope) && !e.ephemeral
    ensures IndexOk(c.(entries := c.entries + [e], index := c.index[k := e.id]))
    ensures |c.index[k := e.id]| == |c.index| + 1
  {
    var r := c.(entries := c.entries + [e], index := c.index[k := e.id]);
    forall x | x in r.index
      ensures exists i :: IsIndexed(r, i, x)
    {
      if x == k {
        assert IsIndexed(r, |c.entries|, x);
      } else {
        var i: nat :| IsIndexed(c, i, x);
        assert IsIndexed(r, i, x);
      }
    }
    assert r.index.Keys == c.index.Keys + {k};
    assert |r.index| == |r.index.Keys| && |c.index| == |c.index.Keys|;
  }

  lemma {:induction false} AddClone(c: Cache, e: Entry)
    requires IndexOk(c) && e.ephemeral
    ensures IndexOk(c.(entries := c.entries + [e]))
  {
    var r := c.(entries := c.entries + [e]);
    forall x | x in r.index
      ensures exists i :: IsIndexed(r, i, x)
    {
      var i: nat :| IsIndexed(c, i, x);
      assert IsIndexed(r, i, x);
    }
  }

  lemma {:induction false} InsertOk(l: Limits, c: Cache, key: Key, scope: Scope, payload: seq<bv8>, now: real)
    requires CacheOk(l, c) && Fits(l, c, |payload|) && (key, scope) !in c.index
    ensures CacheOk(l, Insert(l, c, key, scope, payload, now))
    ensures Pinned(Insert(l, c, key, scope, payload, now).entries) == Pinned(c.entries)
  {
    var e := Entry(c.nextId, 1, key, scope, payload, now, now + l.ttl, now, 0, false);
    hide IndexOk;
    hide DistinctIds;
    hide EntryOk;
    BytesAdd(c.entries, e);
    AddIndexed(c, e, (key, scope));
    AddFresh(c.entries, e, c.nextId);
    var r := Insert(l, c, key, scope, payload, now);
    SameIndex(c.(entries := c.entries + [e], index := c.index[(key, scope) := e.id]), r);
  }

  lemma {:induction false} AddFresh(entries: seq<Entry>, e: Entry, nextId: nat)
    requires DistinctIds(entries) && (forall i :: 0 <= i < |entries| ==> EntryOk(entries[i], nextId))
    requires e.id == nextId && (e.ephemeral ==> e.refcount > 0)
    ensures DistinctIds(entries + [e]) && forall i :: 0 <= i < |entries + [e]| ==> EntryOk((entries + [e])[i], nextId + 1)
  {
    forall i | 0 <= i < |entries|
      ensures EntryOk(entries[i], nextId + 1) && entries[i].id != e.id
    {
      assert EntryOk(entries[i], nextId);
    }
  }

  lemma NamesAnEntry(c: Cache, key: Key, scope: Scope)
    requires BooksOk(c)
    ensures (key, scope) in c.index <==> Existing(c, key, scope).Some?
    ensures Existing(c, key, scope).Some? ==>
              var e := c.entries[Existing(c, key, scope).value]; (e.key, e.scope) == (key, scope) && !e.ephemeral
  {
    if (key, scope) in c.index {
      var i: nat :| IsIndexed(c, i, (key, scope));
      assert c.entries[i].id == c.index[(key, scope)];
    }
  }

  /** Removal never brings an index key back. */
  lemma {:induction false} PruneForgets(c: Cache, now: real, i: nat, k: (Key, Scope))
    requires i <= |c.entries| && k !in c.index
    ensures k !in PruneFrom(c, now, i).index
    decreases |c.entries| - i
  {
    if i < |c.entries| {
      if IsExpired(c.entries[i], now) { PruneForgets(Evict(c, i), now, i, k); } else { PruneForgets(c, now, i + 1, k); }
    }
  }

  lemma {:induction false} MakeRoomForgets(l: Limits, c: Cache, size: nat, k: (Key, Scope))
    requires k !in c.index
    ensures k !in MakeRoom(l, c, size).0.index
    decreases |c.entries|
  {
    var v := Victim(c.entries);
    if !Fits(l, c, size) && v.Some? { MakeRoomForgets(l, Evict(c, v.value), size, k); }
  }

  lemma {:induction false} ReplaceOk(l: Limits, c: Cache, i: nat)
    requires CacheOk(l, c) && i < |c.entries| && c.entries[i].refcount == 0 && !c.entries[i].ephemeral
    ensures CacheOk(l, Invalidated(c, i)) && Pinned(Invalidated(c, i).entries) == Pinned(c.entries)
  {
    hide BooksOk;
    RemoveBooks(c, i, Invalidated(c, i));
    PinnedWithout(c.entries, i);
  }

  lemma {:induction false} RoomForNew(l: Limits, c: Cache, size: nat, now: real, k: (Key, Scope))
    requires CacheOk(l, c) && k !in c.index
    ensures var (r, ok) := MakeRoom(l, Prune(c, now), size);
            && CacheOk(l, r) && k !in r.index && Pinned(r.entries) == Pinned(c.entries) && (ok ==> Fits(l, r, size))
  {
    hide BooksOk;
    PruneOk(l, c, now);
    PruneForgets(c, now, 0, k);
    MakeRoomOk(l, Prune(c, now), size);
    MakeRoomForgets(l, Prune(c, now), size, k);
  }

  /** `put` keeps everything, whether or not it succeeds, and disturbs no pinned entry. */
  lemma {:induction false} PutOk(l: Limits, c: Cache, key: Key, scope: Scope, payload: seq<bv8>, now: real)
    requires CacheOk(l, c)
    ensures var r := Put(l, c, key, scope, payload, now).0; CacheOk(l, r) && Pinned(r.entries) == Pinned(c.entries)
  {
    hide BooksOk;
    if payload != [] && |payload| <= l.byteBudget {
      var c1 := Prune(c, now);
      PruneOk(l, c, now);
      NamesAnEntry(c1, key, scope);
      var prior := Existing(c1, key, scope);
      if prior.None? || c1.entries[prior.value].refcount == 0 {
        var c2 := if prior.Some? then Invalidated(c1, prior.value) else c1;
        if prior.Some? { ReplaceOk(l, c1, prior.value); }
        RoomForNew(l, c2, |payload|, now, (key, scope));
        var (c3, ok) := MakeRoom(l, Prune(c2, now), |payload|);
        if ok { InsertOk(l, c3, key, scope, payload, now); }
      }
    }
  }
}
