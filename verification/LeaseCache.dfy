/** The bounded lease cache. */
module LeaseCache {
  // The exact-token state cache (inference_runtime/cache.py): bounded bytes and entries, LRU
  // with a time to live, leases that pin, copy-on-write clones and scoped visibility. Entries
  // stand in insertion order; identifiers are drawn from a counter, so they never repeat.

  import opened Basics

  datatype Kind = Prefix | Session
  datatype Visibility = Private | Workflow | Tenant
  datatype Scope = Scope(tenant: string, workflow: string, agent: string, visibility: Visibility)
  datatype Key = Key(kind: Kind, namespace: string, tokens: seq<nat>)

  datatype Entry = Entry(
    id: nat, generation: nat, key: Key, scope: Scope, payload: seq<bv8>,
    createdAt: real, expiresAt: real, lastAccess: real, refcount: nat, ephemeral: bool)

  datatype Lease = Lease(entryId: nat, generation: nat, key: Key, mutable: bool, copyOnWrite: bool)

  datatype Limits = Limits(byteBudget: nat, maxEntries: nat, ttl: real)

  datatype Cache = Cache(
    entries: seq<Entry>, index: map<(Key, Scope), nat>, bytesUsed: int, nextId: nat,
    insertions: nat, evictions: nat, invalidations: nat)

  const Empty := Cache([], map[], 0, 0, 0, 0, 0)

  predicate LimitsOk(l: Limits) { l.byteBudget > 0 && l.maxEntries > 0 && l.ttl > 0.0 }

  /** `CacheScope.allows`. */
  predicate Allows(s: Scope, requester: Scope) {
    && s.tenant == requester.tenant
    && (s.visibility == Tenant
        || (s.workflow == requester.workflow && (s.visibility == Workflow || s.agent == requester.agent)))
  }

  // ----- removal -----

  function Without<T>(s: seq<T>, i: nat): (r: seq<T>)
    requires i < |s|
    ensures |r| == |s| - 1
  {
    s[..i] + s[i + 1..]
  }

  function Remove(c: Cache, i: nat): (r: Cache)
    requires i < |c.entries|
    ensures |r.entries| == |c.entries| - 1
  {
    var e := c.entries[i];
    c.(entries := Without(c.entries, i),
       index := if e.ephemeral then c.index else c.index - {(e.key, e.scope)},
       bytesUsed := c.bytesUsed - |e.payload|)
  }

  function Evict(c: Cache, i: nat): (r: Cache)
    requires i < |c.entries|
    ensures |r.entries| == |c.entries| - 1
  {
    Remove(c, i).(evictions := c.evictions + 1)
  }

  function Invalidated(c: Cache, i: nat): (r: Cache)
    requires i < |c.entries|
    ensures |r.entries| == |c.entries| - 1
  {
    Remove(c, i).(invalidations := c.invalidations + 1)
  }

  predicate IsExpired(e: Entry, now: real) { e.refcount == 0 && e.expiresAt <= now }

  /** Evicts the expired entries from place `i` on. */
  function PruneFrom(c: Cache, now: real, i: nat): (r: Cache)
    requires i <= |c.entries|
    ensures |r.entries| <= |c.entries|
    decreases |c.entries| - i
  {
    if i == |c.entries| then c
    else if IsExpired(c.entries[i], now) then PruneFrom(Evict(c, i), now, i)
    else PruneFrom(c, now, i + 1)
  }

  function Prune(c: Cache, now: real): Cache { PruneFrom(c, now, 0) }

  // ----- eviction -----

  predicate Older(a: Entry, b: Entry) {
    a.lastAccess < b.lastAccess || (a.lastAccess == b.lastAccess && a.createdAt < b.createdAt)
  }

  /** The least recently used of the unpinned entries, the first inserted of equals. */
  function Victim(entries: seq<Entry>): (v: Option<nat>)
    ensures v.Some? ==> v.value < |entries| && entries[v.value].refcount == 0
    decreases |entries|
  {
    if entries == [] then None
    else
      var n := |entries| - 1;
      var best := Victim(entries[..n]);
      if entries[n].refcount != 0 then best
      else if best.None? || Older(entries[n], entries[best.value]) then Some(n)
      else best
  }

  predicate Fits(l: Limits, c: Cache, size: nat) { c.bytesUsed + size <= l.byteBudget && |c.entries| < l.maxEntries }

  /** `_ensure_capacity_locked` after pruning; false: everything left is pinned. */
  function MakeRoom(l: Limits, c: Cache, size: nat): (Cache, bool)
    decreases |c.entries|
  {
    if Fits(l, c, size) then (c, true)
    else
      var v := Victim(c.entries);
      if v.None? then (c, false) else MakeRoom(l, Evict(c, v.value), size)
  }

  // ----- put -----

  datatype PutResult = Stored(id: nat) | EmptyPayload | TooLarge | ReplacesLeased | CapacityPinned

  function FindId(entries: seq<Entry>, id: nat): (r: Option<nat>)
    ensures r.Some? ==> r.value < |entries| && entries[r.value].id == id
    ensures r.None? ==> forall k :: 0 <= k < |entries| ==> entries[k].id != id
    decreases |entries|
  {
    if entries == [] then None
    else if entries[|entries| - 1].id == id then Some(|entries| - 1)
    else FindId(entries[..|entries| - 1], id)
  }

  function Insert(l: Limits, c: Cache, key: Key, scope: Scope, payload: seq<bv8>, now: real): Cache {
    var e := Entry(c.nextId, 1, key, scope, payload, now, now + l.ttl, now, 0, false);
    c.(entries := c.entries + [e], index := c.index[(key, scope) := c.nextId], bytesUsed := c.bytesUsed + |payload|,
       nextId := c.nextId + 1, insertions := c.insertions + 1)
  }

  /** The entry that `put` would replace. */
  function Existing(c: Cache, key: Key, scope: Scope): (r: Option<nat>)
    ensures r.Some? ==> r.value < |c.entries|
  {
    if (key, scope) in c.index then FindId(c.entries, c.index[(key, scope)]) else None
  }

  function Put(l: Limits, c: Cache, key: Key, scope: Scope, payload: seq<bv8>, now: real): (Cache, PutResult) {
    if payload == [] then (c, EmptyPayload)
    else if |payload| > l.byteBudget then (c, TooLarge)
    else
      var c1 := Prune(c, now);
      var prior := Existing(c1, key, scope);
      if prior.Some? && c1.entries[prior.value].refcount > 0 then (c1, ReplacesLeased)
      else
        var c2 := if prior.Some? then Invalidated(c1, prior.value) else c1;
        var (c3, ok) := MakeRoom(l, Prune(c2, now), |payload|);
        if !ok then (c3, CapacityPinned) else (Insert(l, c3, key, scope, payload, now), Stored(c3.nextId))
  }

  // ----- acquire -----

  datatype AcquireResult = Granted(lease: Lease) | Missed | Denied | PinnedFull | PrefixIsImmutable

  predicate IsMatch(e: Entry, key: Key) { !e.ephemeral && e.key == key }

  function Rank(v: Visibility): nat { match v case Private => 0 case Workflow => 1 case Tenant => 2 }

  /** Narrower visibility first, then the more recently used. */
  predicate Nearer(a: Entry, b: Entry) {
    || Rank(a.scope.visibility) < Rank(b.scope.visibility)
    || (Rank(a.scope.visibility) == Rank(b.scope.visibility) && a.lastAccess > b.lastAccess)
  }

  function Choose(entries: seq<Entry>, key: Key, requester: Scope): (r: Option<nat>)
    ensures r.Some? ==> r.value < |entries| && IsMatch(entries[r.value], key) && Allows(entries[r.value].scope, requester)
    decreases |entries|
  {
    if entries == [] then None
    else
      var n := |entries| - 1;
      var best := Choose(entries[..n], key, requester);
      if !IsMatch(entries[n], key) || !Allows(entries[n].scope, requester) then best
      else if best.None? || Nearer(entries[n], entries[best.value]) then Some(n)
      else best
  }

  function Clone(l: Limits, c: Cache, e: Entry, requester: Scope, now: real): Cache {
    var copy := Entry(c.nextId, e.generation + 1, e.key, requester, e.payload, now, now + l.ttl, now, 1, true);
    c.(entries := c.entries + [copy], bytesUsed := c.bytesUsed + |e.payload|, nextId := c.nextId + 1)
  }

  function Touch(l: Limits, c: Cache, i: nat, now: real): Cache
    requires i < |c.entries|
  {
    var e := c.entries[i];
    c.(entries := c.entries[i := e.(refcount := e.refcount + 1, lastAccess := now, expiresAt := now + l.ttl)])
  }

  function Acquire(l: Limits, c: Cache, key: Key, requester: Scope, mutable: bool, now: real): (Cache, AcquireResult) {
    if mutable && key.kind == Prefix then (c, PrefixIsImmutable)
    else
      var c1 := Prune(c, now);
      var chosen := Choose(c1.entries, key, requester);
      if chosen.None? then (c1, if exists k :: 0 <= k < |c1.entries| && IsMatch(c1.entries[k], key) then Denied else Missed)
      else
        var e := c1.entries[chosen.value];
        if mutable && e.refcount > 0 then
          var (c2, ok) := MakeRoom(l, Prune(c1, now), |e.payload|);
          if !ok then (c2, PinnedFull)
          else (Clone(l, c2, e, requester, now), Granted(Lease(c2.nextId, e.generation + 1, e.key, mutable, true)))
        else (Touch(l, c1, chosen.value, now), Granted(Lease(e.id, e.generation, e.key, mutable, false)))
  }

  // ----- the other operations -----

  /** `_lease_entry_locked`: the entry a lease still names. */
  function LeaseEntry(c: Cache, lease: Lease): (r: Option<nat>)
    ensures r.Some? ==> r.value < |c.entries|
  {
    var i := FindId(c.entries, lease.entryId);
    if i.None? then None
    else
      var e := c.entries[i.value];
      if e.generation != lease.generation || e.key != lease.key || e.refcount == 0 then None else i
  }

  function Read(c: Cache, lease: Lease): Option<seq<bv8>> {
    var i := LeaseEntry(c, lease);
    if i.None? then None else Some(c.entries[i.value].payload)
  }

  function Release(c: Cache, lease: Lease): (Cache, bool) {
    var i := FindId(c.entries, lease.entryId);
    if i.None? || c.entries[i.value].generation != lease.generation || c.entries[i.value].refcount == 0 then (c, false)
    else
      var e := c.entries[i.value];
      var c1 := c.(entries := c.entries[i.value := e.(refcount := e.refcount - 1)]);
      (if e.ephemeral && e.refcount == 1 then Remove(c1, i.value) else c1, true)
  }

  datatype CommitResult = Committed(id: nat) | NotMutable | NotSession | StaleLease | PutFailed(reason: PutResult)

  function Commit(l: Limits, c: Cache, lease: Lease, key: Key, payload: seq<bv8>, scope: Scope, now: real): (Cache, CommitResult) {
    if !lease.mutable then (c, NotMutable)
    else if key.kind != Session then (c, NotSession)
    else if LeaseEntry(c, lease).None? then (c, StaleLease)
    else
      var (c1, r) := Put(l, c, key, scope, payload, now);
      if !r.Stored? then (c1, PutFailed(r)) else (Release(c1, lease).0, Committed(r.id))
  }

  predicate IsTarget(e: Entry, tenant: string, kind: Option<Kind>, namespace: Option<string>) {
    && e.scope.tenant == tenant && (kind.None? || e.key.kind == kind.value)
    && (namespace.None? || e.key.namespace == namespace.value) && e.refcount == 0
  }

  function InvalidateFrom(c: Cache, tenant: string, kind: Option<Kind>, namespace: Option<string>, i: nat): Cache
    requires i <= |c.entries|
    decreases |c.entries| - i
  {
    if i == |c.entries| then c
    else if IsTarget(c.entries[i], tenant, kind, namespace)
    then InvalidateFrom(Invalidated(c, i), tenant, kind, namespace, i)
    else InvalidateFrom(c, tenant, kind, namespace, i + 1)
  }
}

/** The cache as an object, updated in place. */
module LeaseCacheObject {
  import opened Basics
  import opened LeaseCache
  import Spec = LeaseCache

  class SequenceStateCache {
    const limits: Limits
    var entries: seq<Entry>
    var index: map<(Key, Scope), nat>
    var bytesUsed: int
    var nextId: nat
    var insertions: nat
    var evictions: nat
    var invalidations: nat

    function View(): Cache
      reads this
    {
      Cache(entries, index, bytesUsed, nextId, insertions, evictions, invalidations)
    }

    constructor (limits: Limits)
      requires LimitsOk(limits)
      ensures this.limits == limits && View() == Empty
    {
      this.limits := limits;
      entries, index, bytesUsed, nextId := [], map[], 0, 0;
      insertions, evictions, invalidations := 0, 0, 0;
    }

    method RemoveEntry(i: nat, invalidation: bool)
      requires i < |entries|
      modifies this
      ensures View() == if invalidation then Invalidated(old(View()), i) else Remove(old(View()), i)
    {
      var e := entries[i];
      entries := entries[..i] + entries[i + 1..];
      if !e.ephemeral { index := index - {(e.key, e.scope)}; }
      bytesUsed := bytesUsed - |e.payload|;
      if invalidation { invalidations := invalidations + 1; }
    }

    method Prune(now: real)
      modifies this
      ensures View() == Spec.Prune(old(View()), now)
    {
      ghost var start := View();
      var i := 0;
      while i < |entries|
        invariant i <= |entries| && PruneFrom(View(), now, i) == Spec.Prune(start, now)
        decreases |entries| - i
      {
        if entries[i].refcount == 0 && entries[i].expiresAt <= now {
          RemoveEntry(i, false);
          evictions := evictions + 1;
        } else {
          i := i + 1;
        }
      }
    }

    method FindVictim() returns (v: Option<nat>)
      ensures v == Victim(entries)
    {
      v := None;
      for n := 0 to |entries|
        invariant v == Victim(entries[..n])
      {
        assert entries[..n + 1][..n] == entries[..n];
        if entries[n].refcount == 0 && (v.None? || Older(entries[n], entries[v.value])) { v := Some(n); }
      }
      assert entries[..|entries|] == entries;
    }

    method EnsureCapacity(size: nat, now: real) returns (ok: bool)
      modifies this
      ensures (View(), ok) == MakeRoom(limits, Spec.Prune(old(View()), now), size)
    {
      Prune(now);
      ghost var start := View();
      while bytesUsed + size > limits.byteBudget || |entries| >= limits.maxEntries
        invariant MakeRoom(limits, View(), size) == MakeRoom(limits, start, size)
        decreases |entries|
      {
        var victim := FindVictim();
        if victim.None? { return false; }
        RemoveEntry(victim.value, false);
        evictions := evictions + 1;
      }
      return true;
    }

    method Locate(id: nat) returns (r: Option<nat>)
      ensures r == FindId(entries, id)
    {
      r := None;
      for n := 0 to |entries|
        invariant r == FindId(entries[..n], id)
      {
        assert entries[..n + 1][..n] == entries[..n];
        if entries[n].id == id { r := Some(n); }
      }
      assert entries[..|entries|] == entries;
    }

    method Put(key: Key, scope: Scope, payload: seq<bv8>, now: real) returns (r: PutResult)
      modifies this
      ensures (View(), r) == Spec.Put(limits, old(View()), key, scope, payload, now)
    {
      hide PruneFrom;
      hide MakeRoom;
      hide FindId;
      hide Remove;
      if payload == [] { return EmptyPayload; }
      if |payload| > limits.byteBudget { return TooLarge; }
      Prune(now);
      if (key, scope) in index {
        var prior := Locate(index[(key, scope)]);
        if prior.Some? {
          if entries[prior.value].refcount > 0 { return ReplacesLeased; }
          RemoveEntry(prior.value, true);
        }
      }
      var ok := EnsureCapacity(|payload|, now);
      if !ok { return CapacityPinned; }
      var id := nextId;
      nextId := nextId + 1;
      entries := entries + [Entry(id, 1, key, scope, payload, now, now + limits.ttl, now, 0, false)];
      index := index[(key, scope) := id];
      bytesUsed := bytesUsed + |payload|;
      insertions := insertions + 1;
      return Stored(id);
    }

    /** Matching entries, those that admit the requester, and the nearest of them. */
    method Lookup(key: Key, requester: Scope) returns (matched: bool, chosen: Option<nat>)
      ensures matched == exists k :: 0 <= k < |entries| && IsMatch(entries[k], key)
      ensures chosen == Choose(entries, key, requester)
    {
      matched, chosen := false, None;
      for n := 0 to |entries|
        invariant matched == exists k :: 0 <= k < n && IsMatch(entries[k], key)
        invariant chosen == Choose(entries[..n], key, requester)
      {
        assert entries[..n + 1][..n] == entries[..n];
        if IsMatch(entries[n], key) {
          matched := true;
          if Allows(entries[n].scope, requester) && (chosen.None? || Nearer(entries[n], entries[chosen.value])) {
            chosen := Some(n);
          }
        }
      }
      assert entries[..|entries|] == entries;
    }

    method Acquire(key: Key, requester: Scope, mutable: bool, now: real) returns (r: AcquireResult)
      modifies this
      ensures (View(), r) == Spec.Acquire(limits, old(View()), key, requester, mutable, now)
    {
      hide PruneFrom;
      hide MakeRoom;
      hide Choose;
      if mutable && key.kind == Prefix { return PrefixIsImmutable; }
      Prune(now);
      var matched, chosen := Lookup(key, requester);
      if chosen.None? { return if matched then Denied else Missed; }
      var e := entries[chosen.value];
      var copyOnWrite := mutable && e.refcount > 0;
      if copyOnWrite {
        var ok := EnsureCapacity(|e.payload|, now);
        if !ok { return PinnedFull; }
        var copy := Entry(nextId, e.generation + 1, e.key, requester, e.payload, now, now + limits.ttl, now, 1, true);
        nextId := nextId + 1;
        entries := entries + [copy];
        bytesUsed := bytesUsed + |copy.payload|;
        return Granted(Lease(copy.id, copy.generation, copy.key, mutable, true));
      }
      entries := entries[chosen.value := e.(refcount := e.refcount + 1, lastAccess := now, expiresAt := now + limits.ttl)];
      return Granted(Lease(e.id, e.generation, e.key, mutable, false));
    }

    method Read(lease: Lease) returns (r: Option<seq<bv8>>)
      ensures r == Spec.Read(View(), lease)
    {
      var i := Locate(lease.entryId);
      if i.None? { return None; }
      var e := entries[i.value];
      if e.generation != lease.generation || e.key != lease.key || e.refcount == 0 { return None; }
      return Some(e.payload);
    }

    method Release(lease: Lease) returns (done: bool)
      modifies this
      ensures (View(), done) == Spec.Release(old(View()), lease)
    {
      var i := Locate(lease.entryId);
      if i.None? { return false; }
      var e := entries[i.value];
      if e.generation != lease.generation || e.refcount == 0 { return false; }
      e := e.(refcount := e.refcount - 1);
      entries := entries[i.value := e];
      if e.ephemeral && e.refcount == 0 { RemoveEntry(i.value, false); }
      return true;
    }

    method CommitSession(lease: Lease, key: Key, payload: seq<bv8>, scope: Scope, now: real) returns (r: CommitResult)
      modifies this
      ensures (View(), r) == Spec.Commit(limits, old(View()), lease, key, payload, scope, now)
    {
      hide Spec.Put;
      hide Spec.Release;
      if !lease.mutable { return NotMutable; }
      if key.kind != Session { return NotSession; }
      var bytes := Read(lease);
      if bytes.None? { return StaleLease; }
      var stored := Put(key, scope, payload, now);
      if !stored.Stored? { return PutFailed(stored); }
      var released := Release(lease);
      return Committed(stored.id);
    }

    method Invalidate(tenant: string, kind: Option<Kind>, namespace: Option<string>)
      modifies this
      ensures View() == InvalidateFrom(old(View()), tenant, kind, namespace, 0)
    {
      ghost var start := View();
      var i := 0;
      while i < |entries|
        invariant i <= |entries| && InvalidateFrom(View(), tenant, kind, namespace, i) == InvalidateFrom(start, tenant, kind, namespace, 0)
        decreases |entries| - i
      {
        if IsTarget(entries[i], tenant, kind, namespace) { RemoveEntry(i, true); } else { i := i + 1; }
      }
    }
  }
}
