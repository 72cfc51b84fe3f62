/** What the lease cache answers, said of the entries' fields: who may read what, which entry an
    acquire is given, when it is refused and why, when something is stored. */
module LeaseAnswers {
  import opened Basics
  import opened LeaseCache
  import opened LeaseBooks
  import opened LeaseSafety

  // ----- fields -----

  /** Tenant entries are for the tenant, workflow entries for the workflow, private entries for
      the one agent. */
  predicate MayRead(owner: Scope, requester: Scope) {
    && owner.tenant == requester.tenant
    && (owner.visibility == Workflow ==> owner.workflow == requester.workflow)
    && (owner.visibility == Private ==> owner.workflow == requester.workflow && owner.agent == requester.agent)
  }

  predicate Alive(e: Entry, now: real) { e.refcount > 0 || now < e.expiresAt }

  /** The entries still alive, in order of insertion. */
  function LiveOnly(entries: seq<Entry>, now: real): seq<Entry>
    decreases |entries|
  {
    if entries == [] then []
    else
      var init, last := LiveOnly(entries[..|entries| - 1], now), entries[|entries| - 1];
      if Alive(last, now) then init + [last] else init
  }

  predicate Fitting(e: Entry, key: Key) { e.key == key && !e.ephemeral }

  predicate Usable(e: Entry, key: Key, requester: Scope) { Fitting(e, key) && MayRead(e.scope, requester) }

  /** Narrower visibility wins, then the later use. */
  predicate Beats(a: Entry, b: Entry) {
    var (x, y) := (a.scope.visibility, b.scope.visibility);
    || (x == Private && y != Private) || (x == Workflow && y == Tenant)
    || (x == y && a.lastAccess > b.lastAccess)
  }

  /** Entry `k` is the one to hand out: nothing usable beats it, and it beats everything usable
      before it. */
  predicate IsNearest(live: seq<Entry>, key: Key, requester: Scope, k: nat) {
    && k < |live| && Usable(live[k], key, requester)
    && (forall j :: 0 <= j < |live| && Usable(live[j], key, requester) ==> !Beats(live[j], live[k]))
    && (forall j :: 0 <= j < k && Usable(live[j], key, requester) ==> Beats(live[k], live[j]))
  }

  lemma FieldsDecide(owner: Scope, requester: Scope)
    ensures Allows(owner, requester) <==> MayRead(owner, requester)
  {
  }

  lemma {:induction false} LiveAppend(a: seq<Entry>, b: seq<Entry>, now: real)
    ensures LiveOnly(a + b, now) == LiveOnly(a, now) + LiveOnly(b, now)
    decreases |b|
  {
    if b == [] {
      assert a + b == a;
    } else {
      var init, last := b[..|b| - 1], b[|b| - 1];
      LiveAppend(a, init, now);
      assert (a + b)[..|a + b| - 1] == a + init;
    }
  }

  lemma LiveOne(e: Entry, now: real)
    ensures LiveOnly([e], now) == if Alive(e, now) then [e] else []
  {
    assert [e][..0] == [];
  }

  lemma LiveFirst(e: Entry, rest: seq<Entry>, now: real)
    ensures LiveOnly([e] + rest, now) == (if Alive(e, now) then [e] else []) + LiveOnly(rest, now)
  {
    LiveOne(e, now);
    LiveAppend([e], rest, now);
  }

  /** Pruning leaves the live entries, in order. */
  lemma {:induction false} PruneLeavesLive(c: Cache, now: real, i: nat)
    requires i <= |c.entries|
    ensures PruneFrom(c, now, i).entries == c.entries[..i] + LiveOnly(c.entries[i..], now)
    ensures PruneFrom(c, now, i).nextId == c.nextId
    decreases |c.entries| - i
  {
    assert LiveOnly([], now) == [];
    hide LiveOnly;
    if i == |c.entries| {
      assert c.entries[..i] + [] == c.entries;
    } else {
      var e, rest := c.entries[i], c.entries[i + 1..];
      LiveFirst(e, rest, now);
      assert c.entries[i..] == [e] + rest;
      if IsExpired(e, now) {
        EvictedAt(c, i);
        PruneLeavesLive(Evict(c, i), now, i);
        hide Evict;
        assert [] + LiveOnly(rest, now) == LiveOnly(rest, now);
      } else {
        PruneLeavesLive(c, now, i + 1);
        Shifted(c.entries, i, LiveOnly(rest, now));
      }
    }
  }

  lemma Shifted(entries: seq<Entry>, i: nat, rest: seq<Entry>)
    requires i < |entries|
    ensures entries[..i + 1] + rest == entries[..i] + ([entries[i]] + rest)
  {
  }

  lemma EvictedAt(c: Cache, i: nat)
    requires i < |c.entries|
    ensures var r := Evict(c, i); r.entries[..i] == c.entries[..i] && r.entries[i..] == c.entries[i + 1..] && r.nextId == c.nextId
  {
  }

  lemma PrunedIsLive(c: Cache, now: real)
    ensures Prune(c, now).entries == LiveOnly(c.entries, now) && Prune(c, now).nextId == c.nextId
  {
    PruneLeavesLive(c, now, 0);
    assert c.entries[0..] == c.entries && c.entries[..0] == [];
  }

  lemma {:induction false} ChoosesNearest(entries: seq<Entry>, key: Key, requester: Scope)
    ensures var r := Choose(entries, key, requester);
            if r.Some? then IsNearest(entries, key, requester, r.value)
            else forall j :: 0 <= j < |entries| ==> !Usable(entries[j], key, requester)
    decreases |entries|
  {
    hide MayRead;
    hide Allows;
    if entries != [] {
      var n := |entries| - 1;
      FieldsDecide(entries[n].scope, requester);
      ChoosesNearest(entries[..n], key, requester);
    }
  }

  // ----- acquire -----

  /** The cache's answer to an acquire, on the live entries. */
  ghost predicate Answers(l: Limits, c: Cache, key: Key, requester: Scope, mutable: bool, now: real, c1: Cache, r: AcquireResult) {
    var live := LiveOnly(c.entries, now);
    && (r.PrefixIsImmutable? <==> mutable && key.kind == Prefix)
    && (r.PrefixIsImmutable? ==> c1 == c)
    && (!r.PrefixIsImmutable? ==>
          && (r.Missed? <==> forall e :: e in live ==> !Fitting(e, key))
          && (r.Denied? <==> (exists e :: e in live && Fitting(e, key)) && (forall e :: e in live ==> !Usable(e, key, requester)))
          && (r.Granted? || r.PinnedFull? <==> exists e :: e in live && Usable(e, key, requester))
          && (r.Missed? || r.Denied? ==> c1.entries == live)
          && (r.PinnedFull? <==> NoRoomToCopy(l, live, key, requester, mutable))
          && (r.PinnedFull? ==> c1.entries == Pinned(live))
          && (r.Granted? ==> exists k: nat :: IsNearest(live, key, requester, k) && HandsOut(l, c, live, k, key, requester, mutable, now, c1, r.lease)))
  }

  /** The nearest entry has to be copied, and the pinned ones leave no room for the copy. */
  ghost predicate NoRoomToCopy(l: Limits, live: seq<Entry>, key: Key, requester: Scope, mutable: bool) {
    && mutable
    && exists k: nat :: IsNearest(live, key, requester, k) && live[k].refcount > 0 && !PinnedFit(l, live, |live[k].payload|)
  }

  /** Entry `k` is handed out: itself, with one more holder and a new lease of life, or, when a
      holder wants to write to what others hold, a fresh copy for the requester alone. */
  ghost predicate HandsOut(l: Limits, c: Cache, live: seq<Entry>, k: nat, key: Key, requester: Scope, mutable: bool, now: real,
                           c1: Cache, lease: Lease)
    requires k < |live|
  {
    var e := live[k];
    && lease.key == key && lease.mutable == mutable && (lease.copyOnWrite <==> mutable && e.refcount > 0)
    && if lease.copyOnWrite then
         var copy := Entry(c.nextId, e.generation + 1, key, requester, e.payload, now, now + l.ttl, now, 1, true);
         && lease.entryId == c.nextId && lease.generation == e.generation + 1
         && |c1.entries| > 0 && c1.entries[|c1.entries| - 1] == copy
         && (forall x :: x in c1.entries[..|c1.entries| - 1] ==> x in live)
         && (forall x :: x in live && x.refcount > 0 ==> x in c1.entries)
       else
         && lease.entryId == e.id && lease.generation == e.generation
         && c1.entries == live[k := e.(refcount := e.refcount + 1, lastAccess := now, expiresAt := now + l.ttl)]
  }

  lemma {:induction false} LiveTwice(entries: seq<Entry>, now: real)
    ensures LiveOnly(LiveOnly(entries, now), now) == LiveOnly(entries, now)
    decreases |entries|
  {
    if entries != [] {
      var init, last := entries[..|entries| - 1], entries[|entries| - 1];
      LiveTwice(init, now);
      LiveAppend(LiveOnly(init, now), [last], now);
      LiveOne(last, now);
    }
  }

  lemma {:induction false} RoomFrom(l: Limits, c: Cache, size: nat, e: Entry)
    ensures var r := MakeRoom(l, c, size).0;
            && r.nextId == c.nextId && (e in r.entries ==> e in c.entries)
            && (e in c.entries && e.refcount > 0 ==> e in r.entries)
    decreases |c.entries|
  {
    if !Fits(l, c, size) {
      var v := Victim(c.entries);
      if v.Some? {
        WithoutMembers(c.entries, v.value, e);
        RoomFrom(l, Evict(c, v.value), size, e);
      }
    }
  }

  lemma CopyRoom(l: Limits, c1: Cache, now: real, size: nat)
    requires BooksOk(c1) && LiveOnly(c1.entries, now) == c1.entries
    ensures var (c2, ok) := MakeRoom(l, Prune(c1, now), size);
            && (ok <==> PinnedFit(l, c1.entries, size)) && (!ok ==> c2.entries == Pinned(c1.entries)) && c2.nextId == c1.nextId
            && (forall e :: e in c2.entries ==> e in c1.entries)
            && (forall e :: e in c1.entries && e.refcount > 0 ==> e in c2.entries)
  {
    hide BooksOk;
    PrunedIsLive(c1, now);
    PruneFromOk(c1, now, 0);
    MakeRoomOk(l, Prune(c1, now), size);
    forall e
      ensures e in MakeRoom(l, Prune(c1, now), size).0.entries ==> e in c1.entries
      ensures e in c1.entries && e.refcount > 0 ==> e in MakeRoom(l, Prune(c1, now), size).0.entries
    {
      RoomFrom(l, Prune(c1, now), size, e);
    }
  }

  lemma OneNearest(live: seq<Entry>, key: Key, requester: Scope, a: nat, b: nat)
    requires IsNearest(live, key, requester, a) && IsNearest(live, key, requester, b)
    ensures a == b
  {
    hide Usable;
  }

  lemma HandsOutNearest(l: Limits, c: Cache, key: Key, requester: Scope, mutable: bool, now: real, k: nat)
    requires BooksOk(c) && !(mutable && key.kind == Prefix)
    requires Choose(Prune(c, now).entries, key, requester) == Some(k) && k < |LiveOnly(c.entries, now)|
    requires Fitting(LiveOnly(c.entries, now)[k], key)
    ensures var (c1, r) := Acquire(l, c, key, requester, mutable, now); var live := LiveOnly(c.entries, now);
            && (r.Granted? || r.PinnedFull?)
            && (r.Granted? ==> HandsOut(l, c, live, k, key, requester, mutable, now, c1, r.lease))
            && (r.PinnedFull? <==> mutable && live[k].refcount > 0 && !PinnedFit(l, live, |live[k].payload|))
            && (r.PinnedFull? ==> c1.entries == Pinned(live))
  {
    hide BooksOk;
    hide LiveOnly;
    hide MakeRoom;
    hide PinnedFit;
    hide Choose;
    var p := Prune(c, now);
    PrunedIsLive(c, now);
    LiveTwice(c.entries, now);
    PruneFromOk(c, now, 0);
    var e := p.entries[k];
    CopyRoom(l, p, now, |e.payload|);
    if mutable && e.refcount > 0 && MakeRoom(l, Prune(p, now), |e.payload|).1 {
      var c2 := MakeRoom(l, Prune(p, now), |e.payload|).0;
      var c1 := Acquire(l, c, key, requester, mutable, now).0;
      assert c1.entries[..|c1.entries| - 1] == c2.entries;
      assert forall x :: x in c2.entries ==> x in c1.entries;
    }
  }

  /** An acquire is answered exactly as the fields of the live entries say. */
  lemma AcquireExactly(l: Limits, c: Cache, key: Key, requester: Scope, mutable: bool, now: real)
    requires BooksOk(c)
    ensures var (c1, r) := Acquire(l, c, key, requester, mutable, now); Answers(l, c, key, requester, mutable, now, c1, r)
  {
    hide BooksOk;
    hide LiveOnly;
    hide MayRead;
    hide MakeRoom;
    hide PinnedFit;
    hide HandsOut;
    hide Choose;
    hide Beats;
    if !(mutable && key.kind == Prefix) {
      var p := Prune(c, now);
      PrunedIsLive(c, now);
      ChoosesNearest(p.entries, key, requester);
      var chosen := Choose(p.entries, key, requester);
      if chosen.Some? {
        assert p.entries[chosen.value] in p.entries;
        HandsOutNearest(l, c, key, requester, mutable, now, chosen.value);
        RoomOfNearest(l, p.entries, key, requester, mutable, chosen.value);
      } else {
        hide Usable;
        var live := LiveOnly(c.entries, now);
        assert forall k :: 0 <= k < |live| ==> (IsMatch(live[k], key) <==> Fitting(live[k], key));
        assert forall e :: e in live ==> !Usable(e, key, requester);
      }
    }
  }

  lemma RoomOfNearest(l: Limits, live: seq<Entry>, key: Key, requester: Scope, mutable: bool, k: nat)
    requires IsNearest(live, key, requester, k)
    ensures NoRoomToCopy(l, live, key, requester, mutable) <==>
              mutable && live[k].refcount > 0 && !PinnedFit(l, live, |live[k].payload|)
  {
    hide PinnedFit;
    forall j: nat | IsNearest(live, key, requester, j)
      ensures j == k
    {
      hide IsNearest;
      OneNearest(live, key, requester, j, k);
    }
  }

  /** Over every run: each lease out is backed by an entry whose fields let the holder read it. */
  lemma LeasesRespectFields(l: Limits, ops: seq<Op>, j: nat)
    requires j < |DoAll(l, ops).grants|
    ensures var w := DoAll(l, ops); var g := w.grants[j];
            exists i :: && 0 <= i < |w.cache.entries|
                        && var e := w.cache.entries[i];
                           && e.id == g.lease.entryId && e.generation == g.lease.generation && e.payload == g.bytes && e.refcount > 0
                           && MayRead(e.scope, g.requester)
  {
    hide DoAll;
    LeaseCacheIsSound(l, ops, j);
    var w := DoAll(l, ops);
    var g := w.grants[j];
    var i :| 0 <= i < |w.cache.entries| && Backs(w.cache.entries[i], g);
    FieldsDecide(w.cache.entries[i].scope, g.requester);
  }

  /** And in every reached cache an acquire is answered as the fields say. */
  lemma AnswersOverRuns(l: Limits, ops: seq<Op>, key: Key, requester: Scope, mutable: bool, now: real)
    ensures var c := DoAll(l, ops).cache;
            var (c1, r) := Acquire(l, c, key, requester, mutable, now);
            Answers(l, c, key, requester, mutable, now, c1, r)
  {
    hide Answers;
    RunOk(l, ops);
    AcquireExactly(l, DoAll(l, ops).cache, key, requester, mutable, now);
  }

  // ----- put -----

  predicate SamePlace(e: Entry, key: Key, scope: Scope) { !e.ephemeral && e.key == key && e.scope == scope }

  /** What `put` answers and leaves behind: an entry leased out is never replaced; otherwise it
      is stored exactly if the pinned entries leave room, in place of the entry of the same key
      and scope, and no pinned entry goes. */
  ghost predicate PutAnswers(l: Limits, c: Cache, key: Key, scope: Scope, payload: seq<bv8>, now: real, c1: Cache, r: PutResult) {
    var leased := exists e :: e in c.entries && SamePlace(e, key, scope) && e.refcount > 0;
    var fits := PinnedFit(l, c.entries, |payload|);
    && (r.EmptyPayload? <==> payload == [])
    && (r.TooLarge? <==> payload != [] && |payload| > l.byteBudget)
    && (r.ReplacesLeased? <==> 0 < |payload| <= l.byteBudget && leased)
    && (r.CapacityPinned? <==> 0 < |payload| <= l.byteBudget && !leased && !fits)
    && (r.Stored? <==> 0 < |payload| <= l.byteBudget && !leased && fits)
    && (forall e :: e in c.entries && e.refcount > 0 ==> e in c1.entries)
    && (r.Stored? ==>
          && r.id == c.nextId && |c1.entries| > 0
          && c1.entries[|c1.entries| - 1] == Entry(c.nextId, 1, key, scope, payload, now, now + l.ttl, now, 0, false)
          && forall e :: e in c1.entries[..|c1.entries| - 1] ==> e in c.entries && Alive(e, now) && !SamePlace(e, key, scope))
    && (!r.Stored? ==> forall e :: e in c1.entries ==> e in c.entries)
  }

  lemma ExistingExactly(c: Cache, key: Key, scope: Scope)
    requires BooksOk(c)
    ensures var i := Existing(c, key, scope);
            if i.Some? then SamePlace(c.entries[i.value], key, scope)
            else forall e :: e in c.entries ==> !SamePlace(e, key, scope)
    ensures forall j, k :: 0 <= j < k < |c.entries| ==> !(SamePlace(c.entries[j], key, scope) && SamePlace(c.entries[k], key, scope))
  {
    if (key, scope) in c.index {
      var i: nat :| IsIndexed(c, i, (key, scope));
      var f := FindId(c.entries, c.index[(key, scope)]);
      assert f.Some?;
      assert f.value == i;
    }
  }

  lemma {:induction false} PinnedOfLive(entries: seq<Entry>, now: real)
    ensures Pinned(LiveOnly(entries, now)) == Pinned(entries)
    decreases |entries|
  {
    if entries != [] {
      var init, last := entries[..|entries| - 1], entries[|entries| - 1];
      PinnedOfLive(init, now);
      if Alive(last, now) { assert (LiveOnly(init, now) + [last])[..|LiveOnly(init, now)|] == LiveOnly(init, now); }
    }
  }

  lemma {:induction false} LiveMembers(entries: seq<Entry>, now: real, e: Entry)
    ensures e in LiveOnly(entries, now) <==> e in entries && Alive(e, now)
    decreases |entries|
  {
    if entries != [] {
      var init, last := entries[..|entries| - 1], entries[|entries| - 1];
      LiveMembers(init, now, e);
      assert entries == init + [last];
    }
  }

  /** The cache after the entry of the same key and scope is gone and room is made. */
  function Readied(l: Limits, c: Cache, key: Key, scope: Scope, size: nat, now: real): (Cache, bool) {
    var c1 := Prune(c, now);
    var prior := Existing(c1, key, scope);
    MakeRoom(l, Prune(if prior.Some? then Invalidated(c1, prior.value) else c1, now), size)
  }

  lemma ReadiedOk(l: Limits, c: Cache, key: Key, scope: Scope, size: nat, now: real)
    requires BooksOk(c)
    requires forall e :: e in c.entries && SamePlace(e, key, scope) ==> e.refcount == 0
    ensures var (c3, ok) := Readied(l, c, key, scope, size, now);
            && (ok <==> PinnedFit(l, c.entries, size)) && c3.nextId == c.nextId
            && (forall e :: e in c3.entries ==> e in c.entries && Alive(e, now) && !SamePlace(e, key, scope))
            && (forall e :: e in c.entries && e.refcount > 0 ==> e in c3.entries)
  {
    hide BooksOk;
    hide Existing;
    hide MakeRoom;
    hide SamePlace;
    var c1 := Prune(c, now);
    PrunedIsLive(c, now);
    PruneFromOk(c, now, 0);
    PinnedOfLive(c.entries, now);
    ExistingExactly(c1, key, scope);
    var prior := Existing(c1, key, scope);
    forall e
      ensures e in c1.entries <==> e in c.entries && Alive(e, now)
    {
      LiveMembers(c.entries, now, e);
    }
    var c2 := if prior.Some? then Invalidated(c1, prior.value) else c1;
    if prior.Some? {
      assert c1.entries[prior.value] in c1.entries;
      UnpinnedIsIndexed(c1, prior.value);
      RemoveBooks(c1, prior.value, c2);
      PinnedWithout(c1.entries, prior.value);
    }
    PrunedIsLive(c2, now);
    PruneFromOk(c2, now, 0);
    PinnedOfLive(c2.entries, now);
    MakeRoomOk(l, Prune(c2, now), size);
    forall e
      ensures e in Readied(l, c, key, scope, size, now).0.entries ==> e in c.entries && Alive(e, now) && !SamePlace(e, key, scope)
      ensures e in c.entries && e.refcount > 0 ==> e in Readied(l, c, key, scope, size, now).0.entries
    {
      RoomFrom(l, Prune(c2, now), size, e);
      LiveMembers(c2.entries, now, e);
      if prior.Some? { GoneIsGone(c1, prior.value, e, key, scope); }
    }
    RoomFrom(l, Prune(c2, now), size, Entry(0, 0, key, scope, [], now, now, now, 0, false));
  }

  /** Without the one entry of a key and scope there is none left. */
  lemma GoneIsGone(c: Cache, i: nat, e: Entry, key: Key, scope: Scope)
    requires i < |c.entries| && SamePlace(c.entries[i], key, scope)
    requires forall j, k :: 0 <= j < k < |c.entries| ==> !(SamePlace(c.entries[j], key, scope) && SamePlace(c.entries[k], key, scope))
    ensures e in Without(c.entries, i) ==> e in c.entries && !SamePlace(e, key, scope)
    ensures e in c.entries && e != c.entries[i] ==> e in Without(c.entries, i)
  {
    WithoutMembers(c.entries, i, e);
    WithoutAt(c.entries, i);
    if e in Without(c.entries, i) {
      var j :| 0 <= j < |c.entries| - 1 && Without(c.entries, i)[j] == e;
      assert Place(i, j) != i && c.entries[Place(i, j)] == e;
    }
  }

  lemma {:induction false} PutExactly(l: Limits, c: Cache, key: Key, scope: Scope, payload: seq<bv8>, now: real)
    requires BooksOk(c)
    ensures var (c1, r) := Put(l, c, key, scope, payload, now); PutAnswers(l, c, key, scope, payload, now, c1, r)
  {
    if 0 < |payload| <= l.byteBudget { PutSized(l, c, key, scope, payload, now); }
  }

  /** The live entries, and the one of a key and scope among them. */
  lemma {:induction false} LiveAndPrior(c: Cache, key: Key, scope: Scope, now: real)
    requires BooksOk(c)
    ensures var c1 := Prune(c, now); var prior := Existing(c1, key, scope);
            && (forall e :: e in c1.entries ==> e in c.entries)
            && (prior.Some? ==> prior.value < |c1.entries| && c1.entries[prior.value] in c.entries && SamePlace(c1.entries[prior.value], key, scope))
            && (!(prior.Some? && c1.entries[prior.value].refcount > 0) ==>
                  forall e :: e in c.entries && SamePlace(e, key, scope) ==> e.refcount == 0)
  {
    hide BooksOk;
    hide Existing;
    hide SamePlace;
    var c1 := Prune(c, now);
    PrunedIsLive(c, now);
    PruneFromOk(c, now, 0);
    ExistingExactly(c1, key, scope);
    forall e
      ensures e in c1.entries <==> e in c.entries && Alive(e, now)
    {
      LiveMembers(c.entries, now, e);
    }
    var prior := Existing(c1, key, scope);
    if !(prior.Some? && c1.entries[prior.value].refcount > 0) { NobodyHolds(c, c1, prior, key, scope); }
  }

  lemma {:induction false} PutSized(l: Limits, c: Cache, key: Key, scope: Scope, payload: seq<bv8>, now: real)
    requires BooksOk(c) && 0 < |payload| <= l.byteBudget
    ensures var (c1, r) := Put(l, c, key, scope, payload, now); PutAnswers(l, c, key, scope, payload, now, c1, r)
  {
    hide BooksOk;
    hide Existing;
    hide SamePlace;
    hide PinnedFit;
    hide MakeRoom;
    LiveAndPrior(c, key, scope, now);
    HeldStay(c, now);
    var c1 := Prune(c, now);
    var prior := Existing(c1, key, scope);
    hide Prune;
    if !(prior.Some? && c1.entries[prior.value].refcount > 0) {
      hide Put;
      hide PutAnswers;
      ReadiedOk(l, c, key, scope, |payload|, now);
      PutReadied(l, c, key, scope, payload, now);
    }
  }

  lemma {:induction false} HeldStay(c: Cache, now: real)
    requires BooksOk(c)
    ensures forall e :: e in c.entries && e.refcount > 0 ==> e in Prune(c, now).entries
  {
    hide BooksOk;
    PrunedIsLive(c, now);
    PruneFromOk(c, now, 0);
    forall e
      ensures e in Prune(c, now).entries <==> e in c.entries && Alive(e, now)
    {
      LiveMembers(c.entries, now, e);
    }
  }

  lemma {:induction false} PutReadied(l: Limits, c: Cache, key: Key, scope: Scope, payload: seq<bv8>, now: real)
    requires 0 < |payload| <= l.byteBudget && (forall e :: e in c.entries && SamePlace(e, key, scope) ==> e.refcount == 0)
    requires var c1 := Prune(c, now); var prior := Existing(c1, key, scope);
             prior.Some? ==> prior.value < |c1.entries| && c1.entries[prior.value].refcount == 0
    requires var (c3, ok) := Readied(l, c, key, scope, |payload|, now);
             && (ok <==> PinnedFit(l, c.entries, |payload|)) && c3.nextId == c.nextId
             && (forall e :: e in c3.entries ==> e in c.entries && Alive(e, now) && !SamePlace(e, key, scope))
             && (forall e :: e in c.entries && e.refcount > 0 ==> e in c3.entries)
    ensures var (c1, r) := Put(l, c, key, scope, payload, now); PutAnswers(l, c, key, scope, payload, now, c1, r)
  {
    hide Existing;
    hide MakeRoom;
    hide SamePlace;
    hide PinnedFit;
    hide Prune;
    var c3 := Readied(l, c, key, scope, |payload|, now).0;
    var (after, r) := Put(l, c, key, scope, payload, now);
    if r.Stored? { assert after.entries[..|after.entries| - 1] == c3.entries; }
  }

  /** If the live entry of a key and scope, should there be one, is not held, none is. */
  lemma NobodyHolds(c: Cache, c1: Cache, prior: Option<nat>, key: Key, scope: Scope)
    requires forall e :: e in c.entries && e.refcount > 0 ==> e in c1.entries
    requires forall j, k :: 0 <= j < k < |c1.entries| ==> !(SamePlace(c1.entries[j], key, scope) && SamePlace(c1.entries[k], key, scope))
    requires if prior.Some? then prior.value < |c1.entries| && SamePlace(c1.entries[prior.value], key, scope)
             else forall e :: e in c1.entries ==> !SamePlace(e, key, scope)
    requires prior.Some? ==> c1.entries[prior.value].refcount == 0
    ensures forall e :: e in c.entries && SamePlace(e, key, scope) ==> e.refcount == 0
  {
    hide SamePlace;
    forall j: nat | j < |c1.entries| && SamePlace(c1.entries[j], key, scope)
      ensures c1.entries[j].refcount == 0
    {
      assert prior.Some? ==> j == prior.value;
    }
  }

  // ----- the other operations -----

  /** The entry a lease names, while somebody holds it. */
  predicate Names(lease: Lease, e: Entry) { e.id == lease.entryId && e.generation == lease.generation && e.refcount > 0 }

  lemma FoundById(c: Cache, i: nat)
    requires DistinctIds(c.entries) && i < |c.entries|
    ensures FindId(c.entries, c.entries[i].id) == Some(i)
  {
  }

  /** A release gives back one holder of the named entry, and a clone goes with its last; it is
      refused exactly if no entry held is named. */
  lemma ReleaseExactly(c: Cache, lease: Lease)
    requires DistinctIds(c.entries)
    ensures var (c1, ok) := Release(c, lease);
            && (ok <==> exists i :: 0 <= i < |c.entries| && Names(lease, c.entries[i]))
            && (!ok ==> c1 == c)
            && (forall i: nat :: i < |c.entries| && Names(lease, c.entries[i]) ==>
                  var e := c.entries[i];
                  c1.entries == if e.ephemeral && e.refcount == 1 then Without(c.entries, i) else c.entries[i := e.(refcount := e.refcount - 1)])
  {
    var (c1, ok) := Release(c, lease);
    forall i: nat | i < |c.entries| && Names(lease, c.entries[i])
      ensures ok
      ensures var e := c.entries[i];
              c1.entries == if e.ephemeral && e.refcount == 1 then Without(c.entries, i) else c.entries[i := e.(refcount := e.refcount - 1)]
    {
      FoundById(c, i);
      assert Without(c.entries[i := c.entries[i].(refcount := c.entries[i].refcount - 1)], i) == Without(c.entries, i);
    }
  }

  /** A read gives the bytes of the entry named, under its key, and nothing else. */
  lemma ReadExactly(c: Cache, lease: Lease)
    requires DistinctIds(c.entries)
    ensures forall bytes :: Read(c, lease) == Some(bytes) <==>
              exists i :: 0 <= i < |c.entries| && Names(lease, c.entries[i]) && c.entries[i].key == lease.key && c.entries[i].payload == bytes
  {
    forall i: nat | i < |c.entries| && Names(lease, c.entries[i])
      ensures FindId(c.entries, lease.entryId) == Some(i)
    {
      FoundById(c, i);
    }
  }

  /** A commit needs a mutable lease that still reads and a session key; then it is a `put`, and
      only if that stored does the lease go back. */
  lemma CommitExactly(l: Limits, c: Cache, lease: Lease, key: Key, payload: seq<bv8>, scope: Scope, now: real)
    requires BooksOk(c)
    ensures var (c1, r) := Commit(l, c, lease, key, payload, scope, now);
            && (r.NotMutable? <==> !lease.mutable)
            && (r.NotSession? <==> lease.mutable && key.kind == Prefix)
            && (r.StaleLease? <==> lease.mutable && key.kind == Session && Read(c, lease).None?)
            && (r.NotMutable? || r.NotSession? || r.StaleLease? ==> c1 == c)
            && (r.PutFailed? ==> PutAnswers(l, c, key, scope, payload, now, c1, r.reason) && !r.reason.Stored?)
            && (r.Committed? ==>
                  exists mid :: PutAnswers(l, c, key, scope, payload, now, mid, Stored(r.id)) && Release(mid, lease).0 == c1)
  {
    hide PutAnswers;
    hide Put;
    hide Release;
    hide BooksOk;
    PutExactly(l, c, key, scope, payload, now);
    var (mid, put) := Put(l, c, key, scope, payload, now);
    if put.Stored? {
      assert put == Stored(put.id);
      assert PutAnswers(l, c, key, scope, payload, now, mid, Stored(put.id));
    }
  }

  lemma {:induction false} InvalidatedFrom(c: Cache, tenant: string, kind: Option<Kind>, namespace: Option<string>, i: nat, e: Entry)
    requires i <= |c.entries|
    requires forall k :: 0 <= k < i ==> !IsTarget(c.entries[k], tenant, kind, namespace)
    ensures e in InvalidateFrom(c, tenant, kind, namespace, i).entries <==>
              && e in c.entries
              && !(&& e.refcount == 0 && e.scope.tenant == tenant
                   && (kind == None || kind == Some(e.key.kind)) && (namespace == None || namespace == Some(e.key.namespace)))
    decreases |c.entries| - i
  {
    if i < |c.entries| {
      if IsTarget(c.entries[i], tenant, kind, namespace) {
        WithoutAt(c.entries, i);
        WithoutMembers(c.entries, i, e);
        InvalidatedFrom(Invalidated(c, i), tenant, kind, namespace, i, e);
      } else {
        InvalidatedFrom(c, tenant, kind, namespace, i + 1, e);
      }
    }
  }

  /** Invalidation removes exactly the unpinned entries of the tenant, kind and namespace named. */
  lemma InvalidateExactly(c: Cache, tenant: string, kind: Option<Kind>, namespace: Option<string>, e: Entry)
    ensures e in InvalidateFrom(c, tenant, kind, namespace, 0).entries <==>
              && e in c.entries
              && !(&& e.refcount == 0 && e.scope.tenant == tenant
                   && (kind == None || kind == Some(e.key.kind)) && (namespace == None || namespace == Some(e.key.namespace)))
  {
    InvalidatedFrom(c, tenant, kind, namespace, 0, e);
  }
}
