/** What leases may rely on. */
module LeaseSafety {
  // The lease cache together with the leases out on it, over whole runs: what a lease was
  // granted on stays readable until it is given back.

  import opened Basics
  import opened LeaseCache
  import opened LeaseBooks

  // ----- leases -----

  /** A lease handed out, with the bytes it was handed out for and who asked. */
  datatype Grant = Grant(lease: Lease, bytes: seq<bv8>, requester: Scope)

  function Held(grants: seq<Grant>, id: nat): nat
    decreases |grants|
  {
    if grants == [] then 0 else Held(grants[..|grants| - 1], id) + if grants[|grants| - 1].lease.entryId == id then 1 else 0
  }

  /** The entry keeps what the lease was granted on, for somebody its scope admits. */
  predicate Backs(e: Entry, g: Grant) {
    && e.refcount > 0 && e.id == g.lease.entryId && e.generation == g.lease.generation && e.key == g.lease.key
    && e.payload == g.bytes && Allows(e.scope, g.requester)
  }

  predicate IsBacked(entries: seq<Entry>, g: Grant) { exists i :: 0 <= i < |entries| && Backs(entries[i], g) }

  /** Each entry's reference count is the number of leases out on it, and each lease out is
      backed. */
  predicate LeasesOk(entries: seq<Entry>, grants: seq<Grant>) {
    && (forall i :: 0 <= i < |entries| && entries[i].refcount > 0 ==> entries[i].refcount == Held(grants, entries[i].id))
    && (forall j :: 0 <= j < |grants| ==> IsBacked(entries, grants[j]))
  }

  lemma {:induction false} PinnedMembers(entries: seq<Entry>, e: Entry)
    ensures e in Pinned(entries) <==> e in entries && e.refcount > 0
    decreases |entries|
  {
    if entries != [] {
      var init := entries[..|entries| - 1];
      PinnedMembers(init, e);
      assert entries == init + [entries[|entries| - 1]];
    }
  }

  /** Leases look only at pinned entries. */
  lemma {:induction false} LeasesSurvive(a: seq<Entry>, b: seq<Entry>, grants: seq<Grant>)
    requires LeasesOk(a, grants) && Pinned(a) == Pinned(b)
    ensures LeasesOk(b, grants)
  {
    hide Backs;
    forall i | 0 <= i < |b| && b[i].refcount > 0
      ensures b[i].refcount == Held(grants, b[i].id)
    {
      PinnedMembers(a, b[i]);
      PinnedMembers(b, b[i]);
    }
    forall j | 0 <= j < |grants|
      ensures IsBacked(b, grants[j])
    {
      var i :| 0 <= i < |a| && Backs(a[i], grants[j]);
      BackedIsPinned(a[i], grants[j]);
      PinnedMembers(a, a[i]);
      PinnedMembers(b, a[i]);
      var k :| 0 <= k < |b| && b[k] == a[i];
      assert Backs(b[k], grants[j]);
    }
  }

  lemma BackedIsPinned(e: Entry, g: Grant)
    requires Backs(e, g)
    ensures e.refcount > 0 && e.id == g.lease.entryId
  {
  }

  lemma {:induction false} HeldByOne(grants: seq<Grant>, j: nat)
    requires j < |grants|
    ensures Held(grants, grants[j].lease.entryId) > 0
    decreases |grants|
  {
    if j < |grants| - 1 { HeldByOne(grants[..|grants| - 1], j); }
  }

  lemma {:induction false} HeldHasOne(grants: seq<Grant>, id: nat)
    requires Held(grants, id) > 0
    ensures exists j :: 0 <= j < |grants| && grants[j].lease.entryId == id
    decreases |grants|
  {
    var last := |grants| - 1;
    if grants[last].lease.entryId != id {
      HeldHasOne(grants[..last], id);
      var j :| 0 <= j < last && grants[..last][j].lease.entryId == id;
      assert grants[j].lease.entryId == id;
    }
  }

  lemma {:induction false} UnpinnedIsFree(entries: seq<Entry>, grants: seq<Grant>, i: nat)
    requires LeasesOk(entries, grants) && DistinctIds(entries) && i < |entries| && entries[i].refcount == 0
    ensures Held(grants, entries[i].id) == 0
  {
    if Held(grants, entries[i].id) > 0 {
      HeldHasOne(grants, entries[i].id);
      var j :| 0 <= j < |grants| && grants[j].lease.entryId == entries[i].id;
      NotBackedByUnpinned(entries, grants, i, j);
      assert false;
    }
  }

  lemma {:induction false} NotBackedByUnpinned(entries: seq<Entry>, grants: seq<Grant>, i: nat, j: nat)
    requires LeasesOk(entries, grants) && DistinctIds(entries) && i < |entries| && j < |grants|
    requires grants[j].lease.entryId == entries[i].id
    ensures entries[i].refcount > 0
  {
    var k :| 0 <= k < |entries| && Backs(entries[k], grants[j]);
    assert k == i;
  }

  lemma {:induction false} HeldAdds(grants: seq<Grant>, g: Grant, id: nat)
    ensures Held(grants + [g], id) == Held(grants, id) + if g.lease.entryId == id then 1 else 0
  {
    assert (grants + [g])[..|grants|] == grants;
  }

  lemma {:induction false} HeldWithout(grants: seq<Grant>, j: nat, id: nat)
    requires j < |grants|
    ensures Held(Without(grants, j), id) == Held(grants, id) - if grants[j].lease.entryId == id then 1 else 0
    decreases |grants|
  {
    var n := |grants| - 1;
    if j < n {
      HeldWithout(grants[..n], j, id);
      assert Without(grants, j)[..n - 1] == Without(grants[..n], j);
    } else {
      assert Without(grants, j) == grants[..n];
    }
  }

  // ----- acquire -----

  /** The entry offered is the nearest of those that match and admit the requester: narrowest
      visibility, then most recently used. */
  lemma {:induction false} ChooseIsNearest(entries: seq<Entry>, key: Key, requester: Scope, k: nat)
    requires k < |entries| && IsMatch(entries[k], key) && Allows(entries[k].scope, requester)
    ensures var r := Choose(entries, key, requester); r.Some? && !Nearer(entries[k], entries[r.value])
    decreases |entries|
  {
    hide Allows;
    hide IsMatch;
    var n := |entries| - 1;
    if k < n { ChooseIsNearest(entries[..n], key, requester, k); }
  }

  /** Rewriting an entry's count and times keeps the index. */
  lemma {:induction false} CountIndex(c: Cache, i: nat, e: Entry)
    requires IndexOk(c) && i < |c.entries|
    requires var was := c.entries[i]; e.id == was.id && e.key == was.key && e.scope == was.scope && e.ephemeral == was.ephemeral
    ensures IndexOk(c.(entries := c.entries[i := e]))
  {
    var r := c.(entries := c.entries[i := e]);
    forall k | k in r.index
      ensures exists j :: IsIndexed(r, j, k)
    {
      var j: nat :| IsIndexed(c, j, k);
      assert IsIndexed(r, j, k);
    }
  }

  predicate SameIdentity(a: Entry, b: Entry) {
    a.id == b.id && a.generation == b.generation && a.key == b.key && a.scope == b.scope && a.payload == b.payload && a.ephemeral == b.ephemeral
  }

  lemma {:induction false} CountBooks(c: Cache, i: nat, e: Entry)
    requires BooksOk(c) && i < |c.entries| && SameIdentity(e, c.entries[i]) && (e.ephemeral ==> e.refcount > 0)
    ensures BooksOk(c.(entries := c.entries[i := e]))
  {
    CountIndex(c, i, e);
    BytesReplaced(c.entries, i, e);
    hide IndexOk;
    assert EntryOk(c.entries[i], c.nextId);
  }

  lemma {:induction false} TouchOk(l: Limits, c: Cache, i: nat, now: real)
    requires CacheOk(l, c) && i < |c.entries|
    ensures CacheOk(l, Touch(l, c, i, now))
  {
    hide BooksOk;
    var e := c.entries[i];
    CountBooks(c, i, e.(refcount := e.refcount + 1, lastAccess := now, expiresAt := now + l.ttl));
  }

  lemma BacksStill(a: Entry, b: Entry, g: Grant)
    requires Backs(a, g) && SameIdentity(b, a) && b.refcount > 0
    ensures Backs(b, g)
  {
  }

  lemma {:induction false} TouchLeases(entries: seq<Entry>, grants: seq<Grant>, i: nat, e: Entry, g: Grant)
    requires LeasesOk(entries, grants) && DistinctIds(entries) && i < |entries|
    requires SameIdentity(e, entries[i]) && e.refcount == entries[i].refcount + 1 && Backs(e, g)
    ensures LeasesOk(entries[i := e], grants + [g])
  {
    var after, more := entries[i := e], grants + [g];
    hide Backs;
    BackedIsPinned(e, g);
    forall k | 0 <= k < |after| && after[k].refcount > 0
      ensures after[k].refcount == Held(more, after[k].id)
    {
      HeldAdds(grants, g, after[k].id);
      if k == i {
        if entries[i].refcount == 0 { UnpinnedIsFree(entries, grants, i); }
      } else {
        assert entries[k].id != entries[i].id;
      }
    }
    forall j | 0 <= j < |more|
      ensures IsBacked(after, more[j])
    {
      if j < |grants| {
        assert more[j] == grants[j];
        var k :| 0 <= k < |entries| && Backs(entries[k], grants[j]);
        if k == i { BacksStill(entries[k], e, grants[j]); }
        assert Backs(after[k], more[j]);
      } else {
        assert after[i] == e && more[j] == g;
      }
    }
  }

  lemma {:induction false} CloneBooks(l: Limits, c: Cache, e: Entry, requester: Scope, now: real)
    requires CacheOk(l, c) && Fits(l, c, |e.payload|)
    ensures CacheOk(l, Clone(l, c, e, requester, now))
  {
    var copy := Entry(c.nextId, e.generation + 1, e.key, requester, e.payload, now, now + l.ttl, now, 1, true);
    hide IndexOk;
    hide DistinctIds;
    hide EntryOk;
    BytesAdd(c.entries, copy);
    AddClone(c, copy);
    AddFresh(c.entries, copy, c.nextId);
    SameIndex(c.(entries := c.entries + [copy]), Clone(l, c, e, requester, now));
  }

  lemma {:induction false} CloneLeases(entries: seq<Entry>, grants: seq<Grant>, copy: Entry, g: Grant)
    requires LeasesOk(entries, grants) && copy.refcount == 1 && Backs(copy, g)
    requires forall i :: 0 <= i < |entries| ==> entries[i].id != copy.id
    ensures LeasesOk(entries + [copy], grants + [g])
  {
    hide Backs;
    BackedIsPinned(copy, g);
    var after, more := entries + [copy], grants + [g];
    forall k | 0 <= k < |after| && after[k].refcount > 0
      ensures after[k].refcount == Held(more, after[k].id)
    {
      HeldAdds(grants, g, after[k].id);
      if k == |entries| { NobodyHolds(entries, grants, copy.id); }
    }
    forall j | 0 <= j < |more|
      ensures IsBacked(after, more[j])
    {
      if j < |grants| {
        var k :| 0 <= k < |entries| && Backs(entries[k], grants[j]);
        assert after[k] == entries[k] && more[j] == grants[j];
      } else {
        assert after[|entries|] == copy && more[j] == g;
      }
    }
  }

  lemma {:induction false} NobodyHolds(entries: seq<Entry>, grants: seq<Grant>, id: nat)
    requires LeasesOk(entries, grants) && forall i :: 0 <= i < |entries| ==> entries[i].id != id
    ensures Held(grants, id) == 0
  {
    if Held(grants, id) > 0 {
      HeldHasOne(grants, id);
      assert false;
    }
  }

  // ----- the cache and the leases out on it -----

  datatype World = World(cache: Cache, grants: seq<Grant>)

  ghost predicate WorldOk(l: Limits, w: World) { CacheOk(l, w.cache) && LeasesOk(w.cache.entries, w.grants) }

  /** A client keeps what it was granted and gives each lease back at most once. */
  datatype Op =
    | DoPut(key: Key, scope: Scope, payload: seq<bv8>, now: real)
    | DoAcquire(key: Key, requester: Scope, mutable: bool, now: real)
    | DoRelease(grant: nat)
    | DoCommit(grant: nat, key: Key, payload: seq<bv8>, scope: Scope, now: real)
    | DoInvalidate(tenant: string, kind: Option<Kind>, namespace: Option<string>)
    | DoPrune(now: real)

  /** What a request would be given to read. */
  function Offered(c: Cache, key: Key, requester: Scope, now: real): seq<bv8> {
    var c1 := Prune(c, now);
    var chosen := Choose(c1.entries, key, requester);
    if chosen.None? then [] else c1.entries[chosen.value].payload
  }

  function Do(l: Limits, w: World, op: Op): World {
    match op
    case DoPut(key, scope, payload, now) => w.(cache := Put(l, w.cache, key, scope, payload, now).0)
    case DoAcquire(key, requester, mutable, now) =>
      var (c, r) := Acquire(l, w.cache, key, requester, mutable, now);
      World(c, if r.Granted? then w.grants + [Grant(r.lease, Offered(w.cache, key, requester, now), requester)] else w.grants)
    case DoRelease(j) =>
      if j >= |w.grants| then w else World(Release(w.cache, w.grants[j].lease).0, Without(w.grants, j))
    case DoCommit(j, key, payload, scope, now) =>
      if j >= |w.grants| then w
      else
        var (c, r) := Commit(l, w.cache, w.grants[j].lease, key, payload, scope, now);
        World(c, if r.Committed? then Without(w.grants, j) else w.grants)
    case DoInvalidate(tenant, kind, namespace) => w.(cache := InvalidateFrom(w.cache, tenant, kind, namespace, 0))
    case DoPrune(now) => w.(cache := Prune(w.cache, now))
  }

  lemma SelfAllowed(s: Scope)
    ensures Allows(s, s)
  {
  }

  lemma {:induction false} FreshId(c: Cache)
    requires BooksOk(c)
    ensures forall i :: 0 <= i < |c.entries| ==> c.entries[i].id != c.nextId
  {
    forall i | 0 <= i < |c.entries|
      ensures c.entries[i].id != c.nextId
    {
      assert EntryOk(c.entries[i], c.nextId);
    }
  }

  lemma {:induction false} ShareOk(l: Limits, c: Cache, grants: seq<Grant>, i: nat, requester: Scope, mutable: bool, now: real)
    requires CacheOk(l, c) && LeasesOk(c.entries, grants) && i < |c.entries| && Allows(c.entries[i].scope, requester)
    ensures var e := c.entries[i];
            WorldOk(l, World(Touch(l, c, i, now), grants + [Grant(Lease(e.id, e.generation, e.key, mutable, false), e.payload, requester)]))
  {
    hide IndexOk;
    TouchOk(l, c, i, now);
    var e := c.entries[i];
    TouchLeases(c.entries, grants, i, e.(refcount := e.refcount + 1, lastAccess := now, expiresAt := now + l.ttl),
                Grant(Lease(e.id, e.generation, e.key, mutable, false), e.payload, requester));
  }

  lemma {:induction false} CopyOk(l: Limits, c: Cache, grants: seq<Grant>, e: Entry, requester: Scope, mutable: bool, now: real)
    requires CacheOk(l, c) && LeasesOk(c.entries, grants) && Fits(l, c, |e.payload|)
    ensures WorldOk(l, World(Clone(l, c, e, requester, now),
                             grants + [Grant(Lease(c.nextId, e.generation + 1, e.key, mutable, true), e.payload, requester)]))
  {
    hide BooksOk;
    CloneBooks(l, c, e, requester, now);
    FreshId(c);
    SelfAllowed(requester);
    CloneLeases(c.entries, grants, Entry(c.nextId, e.generation + 1, e.key, requester, e.payload, now, now + l.ttl, now, 1, true),
                Grant(Lease(c.nextId, e.generation + 1, e.key, mutable, true), e.payload, requester));
  }

  lemma {:induction false} RoomForCopy(l: Limits, c: Cache, grants: seq<Grant>, size: nat, now: real)
    requires CacheOk(l, c) && LeasesOk(c.entries, grants)
    ensures var (r, ok) := MakeRoom(l, Prune(c, now), size);
            CacheOk(l, r) && LeasesOk(r.entries, grants) && (ok ==> Fits(l, r, size))
  {
    hide BooksOk;
    hide LeasesOk;
    hide Prune;
    hide MakeRoom;
    PruneOk(l, c, now);
    MakeRoomOk(l, Prune(c, now), size);
    LeasesSurvive(c.entries, MakeRoom(l, Prune(c, now), size).0.entries, grants);
  }

  lemma {:induction false} AcquireOk(l: Limits, w: World, key: Key, requester: Scope, mutable: bool, now: real)
    requires WorldOk(l, w)
    ensures WorldOk(l, Do(l, w, DoAcquire(key, requester, mutable, now)))
  {
    hide BooksOk;
    hide LeasesOk;
    hide Touch;
    hide Clone;
    hide Allows;
    hide Prune;
    hide MakeRoom;
    hide Choose;
    var c1 := Prune(w.cache, now);
    PruneOk(l, w.cache, now);
    LeasesSurvive(w.cache.entries, c1.entries, w.grants);
    var chosen := Choose(c1.entries, key, requester);
    if !(mutable && key.kind == Prefix) && chosen.Some? {
      var e := c1.entries[chosen.value];
      if mutable && e.refcount > 0 {
        RoomForCopy(l, c1, w.grants, |e.payload|, now);
        var (c2, ok) := MakeRoom(l, Prune(c1, now), |e.payload|);
        if ok { CopyOk(l, c2, w.grants, e, requester, mutable, now); }
      } else {
        ShareOk(l, c1, w.grants, chosen.value, requester, mutable, now);
      }
    }
  }

  // ----- release -----

  /** The entry behind an outstanding lease is the one its identifier finds. */
  lemma {:induction false} LeaseFinds(entries: seq<Entry>, grants: seq<Grant>, j: nat)
    requires LeasesOk(entries, grants) && DistinctIds(entries) && j < |grants|
    ensures var i := FindId(entries, grants[j].lease.entryId); i.Some? && Backs(entries[i.value], grants[j])
  {
    assert IsBacked(entries, grants[j]);
    var i :| 0 <= i < |entries| && Backs(entries[i], grants[j]);
    var f := FindId(entries, grants[j].lease.entryId);
    assert f.Some?;
    assert f.value == i;
  }

  /** An outstanding lease always reads the bytes it was granted on. */
  lemma {:induction false} LeaseReads(l: Limits, w: World, j: nat)
    requires WorldOk(l, w) && j < |w.grants|
    ensures Read(w.cache, w.grants[j].lease) == Some(w.grants[j].bytes)
  {
    hide IndexOk;
    LeaseFinds(w.cache.entries, w.grants, j);
  }

  lemma {:induction false} UncountLeases(entries: seq<Entry>, grants: seq<Grant>, i: nat, j: nat, e: Entry)
    requires LeasesOk(entries, grants) && DistinctIds(entries) && i < |entries| && j < |grants|
    requires entries[i].id == grants[j].lease.entryId && entries[i].refcount > 0
    requires SameIdentity(e, entries[i]) && e.refcount == entries[i].refcount - 1
    ensures LeasesOk(entries[i := e], Without(grants, j))
  {
    var after, less := entries[i := e], Without(grants, j);
    hide Backs;
    WithoutAt(grants, j);
    forall k | 0 <= k < |after| && after[k].refcount > 0
      ensures after[k].refcount == Held(less, after[k].id)
    {
      HeldWithout(grants, j, after[k].id);
      if k != i { assert entries[k].id != entries[i].id; }
    }
    forall m | 0 <= m < |less|
      ensures IsBacked(after, less[m])
    {
      var old_m := Place(j, m);
      assert less[m] == grants[old_m] && IsBacked(entries, grants[old_m]);
      var k :| 0 <= k < |entries| && Backs(entries[k], less[m]);
      BackedIsPinned(entries[k], less[m]);
      if k == i {
        HeldByOne(less, m);
        HeldWithout(grants, j, e.id);
        BacksStill(entries[i], e, less[m]);
      }
      assert Backs(after[k], less[m]);
    }
  }

  lemma {:induction false} DropLeases(entries: seq<Entry>, grants: seq<Grant>, i: nat)
    requires LeasesOk(entries, grants) && i < |entries| && entries[i].refcount == 0
    ensures LeasesOk(Without(entries, i), grants)
  {
    PinnedWithout(entries, i);
    LeasesSurvive(entries, Without(entries, i), grants);
  }

  /** Dropping a clone whose last lease is gone changes no counter. */
  lemma {:induction false} DropClone(l: Limits, c: Cache, i: nat, e: Entry)
    requires CacheOk(l, c) && i < |c.entries| && c.entries[i].ephemeral && SameIdentity(e, c.entries[i])
    ensures CacheOk(l, Remove(c.(entries := c.entries[i := e]), i))
  {
    var c1 := c.(entries := c.entries[i := e]);
    CountIndex(c, i, e);
    BytesReplaced(c.entries, i, e);
    BytesWithout(c1.entries, i);
    assert DistinctIds(c1.entries);
    RemoveIndex(c1, i);
    RemoveDistinct(c1.entries, i);
    WithoutAt(c1.entries, i);
    hide IndexOk;
    var r := Remove(c1, i);
    forall k | 0 <= k < |r.entries|
      ensures EntryOk(r.entries[k], r.nextId)
    {
      assert r.entries[k] == c.entries[Place(i, k)];
    }
  }

  lemma {:induction false} ReleaseOk(l: Limits, w: World, j: nat)
    requires WorldOk(l, w) && j < |w.grants|
    ensures WorldOk(l, World(Release(w.cache, w.grants[j].lease).0, Without(w.grants, j)))
    ensures Release(w.cache, w.grants[j].lease).1
  {
    hide IndexOk;
    var c, g := w.cache, w.grants[j];
    LeaseFinds(c.entries, w.grants, j);
    var i := FindId(c.entries, g.lease.entryId).value;
    var e := c.entries[i].(refcount := c.entries[i].refcount - 1);
    UncountLeases(c.entries, w.grants, i, j, e);
    hide BooksOk;
    if e.ephemeral && e.refcount == 0 {
      DropClone(l, c, i, e);
      DropLeases(c.entries[i := e], Without(w.grants, j), i);
    } else {
      CountBooks(c, i, e);
    }
  }

  // ----- releasing once too often -----

  /** The guard of `release`: the entry is there, of the lease's generation, and pinned. */
  predicate Releasable(c: Cache, lease: Lease) {
    var i := FindId(c.entries, lease.entryId);
    i.Some? && c.entries[i.value].generation == lease.generation && c.entries[i.value].refcount > 0
  }

  /** With one holder too few counted, or the entry gone, the leases out no longer hold up. */
  lemma {:induction false} MiscountedLeases(entries: seq<Entry>, after: seq<Entry>, grants: seq<Grant>, i: nat)
    requires LeasesOk(entries, grants) && i < |entries| && entries[i].refcount > 0
    requires forall k :: 0 <= k < |after| && after[k].id == entries[i].id ==> after[k].refcount == entries[i].refcount - 1
    requires entries[i].refcount > 1 ==> exists k :: 0 <= k < |after| && after[k].id == entries[i].id
    ensures !LeasesOk(after, grants)
  {
    var id := entries[i].id;
    assert entries[i].refcount == Held(grants, id);
    HeldHasOne(grants, id);
    var j :| 0 <= j < |grants| && grants[j].lease.entryId == id;
    if entries[i].refcount == 1 {
      assert !IsBacked(after, grants[j]);
    }
  }

  lemma {:induction false} ReleasedEntries(c: Cache, lease: Lease)
    requires DistinctIds(c.entries) && Releasable(c, lease)
    ensures var (i, after) := (FindId(c.entries, lease.entryId).value, Release(c, lease).0.entries);
            && (forall k :: 0 <= k < |after| && after[k].id == c.entries[i].id ==> after[k].refcount == c.entries[i].refcount - 1)
            && (c.entries[i].refcount > 1 ==> |after| == |c.entries| && after[i].id == c.entries[i].id)
  {
    var i := FindId(c.entries, lease.entryId).value;
    var e := c.entries[i];
    var counted := c.entries[i := e.(refcount := e.refcount - 1)];
    assert forall k :: 0 <= k < |counted| && k != i ==> counted[k].id != e.id;
    if e.ephemeral && e.refcount == 1 { WithoutAt(counted, i); }
  }

  /** Exactly when a release that returns no lease of its own does harm: in every sound world
      and for every lease value, releasing it while all leases stay out keeps the world sound
      if and only if the guard refuses the release. */
  lemma {:induction false} SurplusReleaseExact(l: Limits, w: World, lease: Lease)
    requires WorldOk(l, w)
    ensures Release(w.cache, lease).1 <==> Releasable(w.cache, lease)
    ensures WorldOk(l, World(Release(w.cache, lease).0, w.grants)) <==> !Releasable(w.cache, lease)
  {
    hide IndexOk;
    if Releasable(w.cache, lease) {
      ReleasedEntries(w.cache, lease);
      var i := FindId(w.cache.entries, lease.entryId).value;
      var after := Release(w.cache, lease).0.entries;
      if w.cache.entries[i].refcount > 1 { assert after[i].id == w.cache.entries[i].id; }
      MiscountedLeases(w.cache.entries, after, w.grants, i);
    }
  }

  /** So giving a lease back a second time does harm exactly when another lease is still out on
      the same entry. */
  lemma {:induction false} RepeatedReleaseExact(l: Limits, w: World, j: nat)
    requires WorldOk(l, w) && j < |w.grants|
    ensures var (lease, less) := (w.grants[j].lease, Without(w.grants, j));
            var once := Release(w.cache, lease).0;
            && WorldOk(l, World(once, less))
            && (WorldOk(l, World(Release(once, lease).0, less)) <==> Held(less, lease.entryId) == 0)
  {
    var (lease, less) := (w.grants[j].lease, Without(w.grants, j));
    ReleaseOk(l, w, j);
    var once := Release(w.cache, lease).0;
    SurplusReleaseExact(l, World(once, less), lease);
    LeaseFinds(w.cache.entries, w.grants, j);
    KeepsGeneration(w.cache, lease);
    HeldIffReleasable(once, less, lease);
  }

  /** A release leaves the entry's generation as it was. */
  lemma {:induction false} KeepsGeneration(c: Cache, lease: Lease)
    requires Releasable(c, lease) && DistinctIds(c.entries)
    ensures var i := FindId(Release(c, lease).0.entries, lease.entryId);
            i.Some? ==> Release(c, lease).0.entries[i.value].generation == lease.generation
  {
    var i := FindId(c.entries, lease.entryId).value;
    var e := c.entries[i];
    var counted := c.entries[i := e.(refcount := e.refcount - 1)];
    assert forall k :: 0 <= k < |counted| && k != i ==> counted[k].id != e.id;
    if e.ephemeral && e.refcount == 1 { WithoutAt(counted, i); }
  }

  lemma {:induction false} HeldIffReleasable(c: Cache, grants: seq<Grant>, lease: Lease)
    requires LeasesOk(c.entries, grants) && DistinctIds(c.entries)
    requires var i := FindId(c.entries, lease.entryId); i.Some? ==> c.entries[i.value].generation == lease.generation
    ensures Releasable(c, lease) <==> Held(grants, lease.entryId) > 0
  {
    if Held(grants, lease.entryId) > 0 {
      HeldHasOne(grants, lease.entryId);
      var j :| 0 <= j < |grants| && grants[j].lease.entryId == lease.entryId;
      LeaseFinds(c.entries, grants, j);
    }
  }

  /** An instance: two clients share an entry, one gives its lease back twice, and the other's
      lease no longer reads anything. */
  lemma DoubleReleaseStrands(c: Cache, lease: Lease)
    requires LeaseEntry(c, lease).Some? && DistinctIds(c.entries)
    requires var e := c.entries[LeaseEntry(c, lease).value]; e.refcount == 2 && !e.ephemeral
    ensures var c1 := Release(c, lease).0;
            Release(c, lease).1 && Read(c1, lease).Some? && Release(c1, lease).1 && Read(Release(c1, lease).0, lease).None?
  {
    var i := FindId(c.entries, lease.entryId).value;
    var c1 := Release(c, lease).0;
    assert c1.entries[i].id == lease.entryId;
    assert FindId(c1.entries, lease.entryId).value == i;
    var c2 := Release(c1, lease).0;
    assert c2.entries[i].id == lease.entryId;
    assert FindId(c2.entries, lease.entryId).value == i;
  }

  // ----- the rest -----

  lemma {:induction false} InvalidateOk(l: Limits, c: Cache, tenant: string, kind: Option<Kind>, namespace: Option<string>, i: nat)
    requires CacheOk(l, c) && i <= |c.entries|
    ensures var r := InvalidateFrom(c, tenant, kind, namespace, i); CacheOk(l, r) && Pinned(r.entries) == Pinned(c.entries)
    decreases |c.entries| - i
  {
    hide BooksOk;
    if i < |c.entries| {
      if IsTarget(c.entries[i], tenant, kind, namespace) {
        UnpinnedIsIndexed(c, i);
        ReplaceOk(l, c, i);
        InvalidateOk(l, Invalidated(c, i), tenant, kind, namespace, i);
      } else {
        InvalidateOk(l, c, tenant, kind, namespace, i + 1);
      }
    }
  }

  lemma {:induction false} PutWorldOk(l: Limits, w: World, key: Key, scope: Scope, payload: seq<bv8>, now: real)
    requires WorldOk(l, w)
    ensures WorldOk(l, w.(cache := Put(l, w.cache, key, scope, payload, now).0))
  {
    hide CacheOk;
    hide LeasesOk;
    hide Put;
    PutOk(l, w.cache, key, scope, payload, now);
    LeasesSurvive(w.cache.entries, Put(l, w.cache, key, scope, payload, now).0.entries, w.grants);
  }

  lemma {:induction false} CommitOk(l: Limits, w: World, j: nat, key: Key, payload: seq<bv8>, scope: Scope, now: real)
    requires WorldOk(l, w) && j < |w.grants|
    ensures WorldOk(l, Do(l, w, DoCommit(j, key, payload, scope, now)))
  {
    hide WorldOk;
    hide Put;
    hide Release;
    PutWorldOk(l, w, key, scope, payload, now);
    ReleaseOk(l, w.(cache := Put(l, w.cache, key, scope, payload, now).0), j);
  }

  lemma {:induction false} DoOk(l: Limits, w: World, op: Op)
    requires WorldOk(l, w)
    ensures WorldOk(l, Do(l, w, op))
  {
    hide CacheOk;
    hide LeasesOk;
    match op
    case DoPut(key, scope, payload, now) => PutWorldOk(l, w, key, scope, payload, now);
    case DoAcquire(key, requester, mutable, now) => AcquireOk(l, w, key, requester, mutable, now);
    case DoRelease(j) => if j < |w.grants| { ReleaseOk(l, w, j); }
    case DoCommit(j, key, payload, scope, now) => if j < |w.grants| { CommitOk(l, w, j, key, payload, scope, now); }
    case DoInvalidate(tenant, kind, namespace) =>
      InvalidateOk(l, w.cache, tenant, kind, namespace, 0);
      LeasesSurvive(w.cache.entries, InvalidateFrom(w.cache, tenant, kind, namespace, 0).entries, w.grants);
    case DoPrune(now) =>
      PruneOk(l, w.cache, now);
      LeasesSurvive(w.cache.entries, Prune(w.cache, now).entries, w.grants);
  }

  function DoAll(l: Limits, ops: seq<Op>): World
    decreases |ops|
  {
    if ops == [] then World(Empty, []) else Do(l, DoAll(l, ops[..|ops| - 1]), ops[|ops| - 1])
  }

  lemma {:induction false} RunOk(l: Limits, ops: seq<Op>)
    ensures WorldOk(l, DoAll(l, ops))
    decreases |ops|
  {
    hide Do;
    if ops != [] {
      RunOk(l, ops[..|ops| - 1]);
      DoOk(l, DoAll(l, ops[..|ops| - 1]), ops[|ops| - 1]);
    }
  }

  /** Over every run of clients that give each lease back at most once: the bytes in use are
      the sum of the entries' sizes and within budget, the index is exactly the entries that
      are not clones, every insertion is accounted for, and every lease still out reads the
      bytes present when it was acquired, from an entry whose scope admits its holder. */
  lemma LeaseCacheIsSound(l: Limits, ops: seq<Op>, j: nat)
    ensures var c := DoAll(l, ops).cache;
            && c.bytesUsed == TotalBytes(c.entries) && c.bytesUsed <= l.byteBudget && |c.entries| <= l.maxEntries
            && IndexOk(c) && c.insertions == c.evictions + c.invalidations + |c.index|
    ensures var w := DoAll(l, ops);
            j < |w.grants| ==> && Read(w.cache, w.grants[j].lease) == Some(w.grants[j].bytes)
                               && IsBacked(w.cache.entries, w.grants[j])
  {
    RunOk(l, ops);
    if j < |DoAll(l, ops).grants| { LeaseReads(l, DoAll(l, ops), j); }
  }

  // ----- a run in which it happens -----

  /** One entry, held `n` times. */
  function OneEntry(l: Limits, key: Key, scope: Scope, payload: seq<bv8>, n: nat): Cache {
    Cache([Entry(0, 1, key, scope, payload, 0.0, 0.0 + l.ttl, 0.0, n, false)], map[(key, scope) := 0], |payload|, 1, 1, 0, 0)
  }

  lemma FirstPut(l: Limits, key: Key, scope: Scope, payload: seq<bv8>)
    requires LimitsOk(l) && 0 < |payload| <= l.byteBudget
    ensures Put(l, Empty, key, scope, payload, 0.0) == (OneEntry(l, key, scope, payload, 0), Stored(0))
  {
    assert Fits(l, Empty, |payload|);
    assert [] + OneEntry(l, key, scope, payload, 0).entries == OneEntry(l, key, scope, payload, 0).entries;
  }

  lemma NextAcquire(l: Limits, key: Key, scope: Scope, payload: seq<bv8>, n: nat)
    requires LimitsOk(l) && payload != []
    ensures Offered(OneEntry(l, key, scope, payload, n), key, scope, 0.0) == payload
    ensures Acquire(l, OneEntry(l, key, scope, payload, n), key, scope, false, 0.0) ==
              (OneEntry(l, key, scope, payload, n + 1), Granted(Lease(0, 1, key, false, false)))
  {
    var c := OneEntry(l, key, scope, payload, n);
    SelfAllowed(scope);
    assert !IsExpired(c.entries[0], 0.0);
    assert PruneFrom(c, 0.0, 1) == c && Prune(c, 0.0) == c;
    assert c.entries[..0] == [];
    assert Choose(c.entries[..0], key, scope).None?;
    assert Choose(c.entries, key, scope) == Some(0);
    assert Touch(l, c, 0, 0.0).entries == OneEntry(l, key, scope, payload, n + 1).entries;
  }

  /** From an empty cache: store an entry, let two clients acquire it, and let one of them give
      its lease back twice. Every bound and every identifier is met on the way, and the second
      client is left with a lease that reads nothing. */
  lemma DoubleReleaseHappens(l: Limits, key: Key, scope: Scope, payload: seq<bv8>)
    requires LimitsOk(l) && 0 < |payload| <= l.byteBudget
    ensures var ops := [DoPut(key, scope, payload, 0.0), DoAcquire(key, scope, false, 0.0), DoAcquire(key, scope, false, 0.0)];
            var w := DoAll(l, ops);
            && |w.grants| == 2 && Read(w.cache, w.grants[1].lease) == Some(payload)
            && var lease := w.grants[0].lease;
               var twice := Release(Release(w.cache, lease).0, lease).0;
               Read(twice, w.grants[1].lease).None? && !WorldOk(l, World(twice, [w.grants[1]]))
  {
    var put, get := DoPut(key, scope, payload, 0.0), DoAcquire(key, scope, false, 0.0);
    var ops := [put, get, get];
    var g := Grant(Lease(0, 1, key, false, false), payload, scope);
    FirstPut(l, key, scope, payload);
    NextAcquire(l, key, scope, payload, 0);
    NextAcquire(l, key, scope, payload, 1);
    assert ops[..2] == [put, get] && [put, get][..1] == [put] && [put][..0] == [];
    assert DoAll(l, [put]) == World(OneEntry(l, key, scope, payload, 0), []);
    assert DoAll(l, [put, get]) == World(OneEntry(l, key, scope, payload, 1), [g]);
    assert DoAll(l, ops) == World(OneEntry(l, key, scope, payload, 2), [g, g]);
    var c := OneEntry(l, key, scope, payload, 2);
    assert FindId(c.entries, 0) == Some(0);
    assert LeaseEntry(c, g.lease) == Some(0);
    DoubleReleaseStrands(c, g.lease);
    RunOk(l, ops);
    LeaseReads(l, DoAll(l, ops), 1);
    RepeatedReleaseExact(l, DoAll(l, ops), 0);
    assert Without([g, g], 0) == [g];
    HeldByOne([g], 0);
  }
}
