/** The host's idempotent request cache: claims, owner guards, completion and abandonment. */
module RequestCache {
  import opened RecentWindow

  // Request identifiers, request fingerprints and host frames are opaque here.
  type RequestId = nat
  type Fingerprint = nat
  type Frames = seq<nat>

  datatype Entry =
    | Pending(fingerprint: Fingerprint)
    | Complete(fingerprint: Fingerprint, frames: Frames)

  datatype Claim =
    | Owner
    | Cached(frames: Frames)
    | Wait
    | RequestIdConflict
    | RequestCapacityExceeded(maximum: nat)

  datatype Limits = Limits(completed: nat, pending: nat)

  datatype Cache = Cache(
    entries: map<RequestId, Entry>,
    order: seq<RequestId>,
    pending: nat,
    limits: Limits)

  function PendingIds(entries: map<RequestId, Entry>): (r: set<RequestId>) {
    set id | id in entries && entries[id].Pending?
  }

  function CompleteIds(entries: map<RequestId, Entry>): (r: set<RequestId>) {
    set id | id in entries && entries[id].Complete?
  }

  /** The table, the queue and the counter tell the same story. */
  ghost predicate Consistent(c: Cache) {
    && c.limits.completed > 0 && c.limits.pending > 0
    && NoDup(c.order)
    && Elements(c.order) == CompleteIds(c.entries)
    && |c.order| <= c.limits.completed
    && c.pending == |PendingIds(c.entries)| <= c.limits.pending
  }

  function ClaimOutcome(c: Cache, id: RequestId, fingerprint: Fingerprint): (r: Claim) {
    if id in c.entries then
      if c.entries[id].fingerprint != fingerprint then RequestIdConflict
      else if c.entries[id].Pending? then Wait
      else Cached(c.entries[id].frames)
    else if c.pending >= c.limits.pending then RequestCapacityExceeded(c.limits.pending)
    else Owner
  }

  function AfterClaim(c: Cache, id: RequestId, fingerprint: Fingerprint): (r: Cache) {
    if ClaimOutcome(c, id, fingerprint).Owner? then
      c.(entries := c.entries[id := Pending(fingerprint)], pending := c.pending + 1)
    else c
  }

  /** The guard still owns its entry. */
  predicate Holds(c: Cache, id: RequestId, fingerprint: Fingerprint) {
    id in c.entries && c.entries[id] == Pending(fingerprint)
  }

  function AfterComplete(c: Cache, id: RequestId, fingerprint: Fingerprint, frames: Frames): (r: Cache)
    requires Consistent(c)
  {
    if !Holds(c, id, fingerprint) then c
    else
      var order := Last(c.order + [id], c.limits.completed);
      HoldsMeansPending(c, id, fingerprint);
      c.(entries := c.entries[id := Complete(fingerprint, frames)] - (Elements(c.order) - Elements(order)),
         order := order,
         pending := c.pending - 1)
  }

  function AfterAbandon(c: Cache, id: RequestId, fingerprint: Fingerprint): (r: Cache)
    requires Consistent(c)
  {
    if !Holds(c, id, fingerprint) then c
    else
      HoldsMeansPending(c, id, fingerprint);
      c.(entries := c.entries - {id}, pending := c.pending - 1)
  }

  lemma HoldsMeansPending(c: Cache, id: RequestId, fingerprint: Fingerprint)
    requires Consistent(c) && Holds(c, id, fingerprint)
    ensures c.pending > 0 && id !in c.order
  {
    assert id in PendingIds(c.entries);
    assert id !in CompleteIds(c.entries);
  }

  class Table {
    var entries: map<RequestId, Entry>
    var order: seq<RequestId>
    var pending: nat
    const limits: Limits

    ghost function View(): (c: Cache)
      reads this
    {
      Cache(entries, order, pending, limits)
    }

    constructor (limits: Limits)
      requires limits.completed > 0 && limits.pending > 0
      ensures View() == Cache(map[], [], 0, limits)
      ensures Consistent(View())
    {
      entries, order, pending := map[], [], 0;
      this.limits := limits;
    }

    method ClaimRequest(id: RequestId, fingerprint: Fingerprint) returns (r: Claim)
      requires Consistent(View())
      modifies this
      ensures r == ClaimOutcome(old(View()), id, fingerprint)
      ensures View() == AfterClaim(old(View()), id, fingerprint)
      ensures Consistent(View())
    {
      ghost var before := View();
      if id in entries {
        match entries[id]
        case Pending(existing) => {
          return if existing == fingerprint then Wait else RequestIdConflict;
        }
        case Complete(existing, frames) => {
          return if existing == fingerprint then Cached(frames) else RequestIdConflict;
        }
      }
      if pending >= limits.pending {
        return RequestCapacityExceeded(limits.pending);
      }
      entries := entries[id := Pending(fingerprint)];
      pending := pending + 1;
      ClaimKeepsConsistent(before, id, fingerprint);
      return Owner;
    }

    method EvictCompleted()
      requires NoDup(order)
      requires forall x :: x in order ==> x in entries && entries[x].Complete?
      modifies this
      ensures pending == old(pending)
      ensures order == Last(old(order), limits.completed)
      ensures entries == old(entries) - (Elements(old(order)) - Elements(order))
    {
      ghost var all := order;
      ghost var k := 0;
      while |order| > limits.completed
        invariant pending == old(pending)
        invariant 0 <= k <= |all| && order == all[k..]
        invariant k > 0 ==> |order| >= limits.completed
        invariant NoDup(order)
        invariant entries == old(entries) - (Elements(all) - Elements(order))
        invariant forall x :: x in order ==> x in entries && entries[x].Complete?
        decreases |order|
      {
        var expired := order[0];
        ElementsOfTail(order);
        assert expired in Elements(all) by { assert all[k] == expired; }
        order := order[1..];
        if expired in entries && entries[expired].Complete? {
          entries := entries - {expired};
        }
        k := k + 1;
      }
      assert k == |all| - |order|;
    }

    /** What a guard does when its request finished. */
    method Finish(id: RequestId, fingerprint: Fingerprint, frames: Frames)
      requires Consistent(View())
      modifies this
      ensures View() == AfterComplete(old(View()), id, fingerprint, frames)
      ensures Consistent(View())
    {
      ghost var before := View();
      CompleteKeepsConsistent(before, id, fingerprint, frames);
      if id !in entries || entries[id] != Pending(fingerprint) {
        return;
      }
      HoldsMeansPending(before, id, fingerprint);
      pending := pending - 1;
      entries := entries[id := Complete(fingerprint, frames)];
      ElementsOfPush(order, id);
      forall x | x in order + [id]
        ensures x in entries && entries[x].Complete?
      {
        if x != id {
          assert x in CompleteIds(before.entries);
        }
      }
      order := order + [id];
      EvictCompleted();
      assert id in order;
      assert Elements(before.order + [id]) - Elements(order) == Elements(before.order) - Elements(order);
    }

    /** What dropping an armed guard does. */
    method Drop(id: RequestId, fingerprint: Fingerprint)
      requires Consistent(View())
      modifies this
      ensures View() == AfterAbandon(old(View()), id, fingerprint)
      ensures Consistent(View())
    {
      AbandonKeepsConsistent(View(), id, fingerprint);
      if id in entries && entries[id] == Pending(fingerprint) {
        HoldsMeansPending(View(), id, fingerprint);
        entries := entries - {id};
        pending := pending - 1;
      }
    }
  }

  lemma ClaimKeepsConsistent(c: Cache, id: RequestId, fingerprint: Fingerprint)
    requires Consistent(c)
    ensures Consistent(AfterClaim(c, id, fingerprint))
  {
    var d := AfterClaim(c, id, fingerprint);
    if ClaimOutcome(c, id, fingerprint).Owner? {
      assert PendingIds(d.entries) == PendingIds(c.entries) + {id};
      assert CompleteIds(d.entries) == CompleteIds(c.entries);
    }
  }

  lemma PendingIdsAfter(c: Cache, id: RequestId, fingerprint: Fingerprint, frames: Frames)
    requires Consistent(c) && Holds(c, id, fingerprint)
    ensures PendingIds(AfterComplete(c, id, fingerprint, frames).entries) == PendingIds(c.entries) - {id}
    ensures |PendingIds(c.entries) - {id}| == c.pending - 1
  {
    var d := AfterComplete(c, id, fingerprint, frames);
    assert Elements(c.order) == CompleteIds(c.entries);
    assert id in PendingIds(c.entries);
    forall x
      ensures x in PendingIds(d.entries) <==> x in PendingIds(c.entries) - {id}
    {
      assert x in Elements(c.order) <==> x in CompleteIds(c.entries);
    }
  }

  lemma CompleteKeepsConsistent(c: Cache, id: RequestId, fingerprint: Fingerprint, frames: Frames)
    requires Consistent(c)
    ensures Consistent(AfterComplete(c, id, fingerprint, frames))
  {
    if Holds(c, id, fingerprint) {
      HoldsMeansPending(c, id, fingerprint);
      WindowAfterPush(c.order, id, c.limits.completed);
      PendingIdsAfter(c, id, fingerprint, frames);
      CompleteIdsAfter(c, id, fingerprint, frames);
      hide PendingIds;
      hide CompleteIds;
      hide Elements;
    }
  }

  lemma CompleteIdsAfter(c: Cache, id: RequestId, fingerprint: Fingerprint, frames: Frames)
    requires Consistent(c) && Holds(c, id, fingerprint)
    ensures var d := AfterComplete(c, id, fingerprint, frames);
            CompleteIds(d.entries) == Elements(d.order)
  {
    var d := AfterComplete(c, id, fingerprint, frames);
    HoldsMeansPending(c, id, fingerprint);
    WindowAfterPush(c.order, id, c.limits.completed);
    assert CompleteIds(d.entries) == CompleteIds(c.entries) + {id} - (Elements(c.order) - Elements(d.order));
  }

  lemma AbandonKeepsConsistent(c: Cache, id: RequestId, fingerprint: Fingerprint)
    requires Consistent(c)
    ensures Consistent(AfterAbandon(c, id, fingerprint))
  {
    if Holds(c, id, fingerprint) {
      var d := AfterAbandon(c, id, fingerprint);
      assert PendingIds(d.entries) == PendingIds(c.entries) - {id};
      assert CompleteIds(d.entries) == CompleteIds(c.entries);
    }
  }

  // ---------------------------------------------------------------------------------------
  // Runs: any interleaving of claims, completions and dropped guards.

  datatype Guard = Guard(id: RequestId, fingerprint: Fingerprint)

  /** A completed execution, with the number of the guard that ran it. */
  datatype Done = Done(id: RequestId, fingerprint: Fingerprint, frames: Frames, guard: nat)

  /** The cache, the live guards, how many were ever issued, and everything completed so far. */
  datatype World = World(cache: Cache, guards: map<nat, Guard>, issued: nat, done: seq<Done>)

  datatype Action =
    | DoClaim(id: RequestId, fingerprint: Fingerprint)
    | DoComplete(guard: nat, frames: Frames)
    | DoAbandon(guard: nat)

  function Start(limits: Limits): (w: World) {
    World(Cache(map[], [], 0, limits), map[], 0, [])
  }

  ghost predicate Enabled(w: World, a: Action) {
    && Consistent(w.cache)
    && (a.DoComplete? || a.DoAbandon? ==> a.guard in w.guards)
  }

  ghost function Apply(w: World, a: Action): (r: World)
    requires Enabled(w, a)
  {
    match a
    case DoClaim(id, fp) =>
      var w' := w.(cache := AfterClaim(w.cache, id, fp));
      if ClaimOutcome(w.cache, id, fp).Owner? then
        w'.(guards := w.guards[w.issued := Guard(id, fp)], issued := w.issued + 1)
      else w'
    case DoComplete(g, frames) =>
      var Guard(id, fp) := w.guards[g];
      w.(cache := AfterComplete(w.cache, id, fp, frames),
         guards := w.guards - {g},
         done := w.done + [Done(id, fp, frames, g)])
    case DoAbandon(g) =>
      var Guard(id, fp) := w.guards[g];
      w.(cache := AfterAbandon(w.cache, id, fp), guards := w.guards - {g})
  }

  ghost predicate IsRun(w: World, actions: seq<Action>, end: World)
    decreases |actions|
  {
    if actions == [] then w == end
    else Enabled(w, actions[0]) && IsRun(Apply(w, actions[0]), actions[1..], end)
  }

  function DoneIds(done: seq<Done>): (r: seq<RequestId>)
    ensures |r| == |done|
    ensures forall i :: 0 <= i < |done| ==> r[i] == done[i].id
  {
    seq(|done|, i requires 0 <= i < |done| => done[i].id)
  }

  predicate Pends(entries: map<RequestId, Entry>, id: RequestId) {
    id in entries && entries[id].Pending?
  }

  /** Every live guard owns its entry, and no two own the same one. */
  ghost predicate GuardsOwn(entries: map<RequestId, Entry>, guards: map<nat, Guard>) {
    && (forall g :: g in guards ==> guards[g].id in entries && entries[guards[g].id] == Pending(guards[g].fingerprint))
    && (forall g, h :: g in guards && h in guards && guards[g].id == guards[h].id ==> g == h)
  }

  ghost predicate HasOwner(guards: map<nat, Guard>, id: RequestId) {
    exists g :: g in guards && guards[g].id == id
  }

  ghost predicate PendingOwned(entries: map<RequestId, Entry>, guards: map<nat, Guard>) {
    forall id :: Pends(entries, id) ==> HasOwner(guards, id)
  }

  /** The queue is the tail of everything ever completed. */
  ghost predicate QueueIsTail(order: seq<RequestId>, ids: seq<RequestId>, n: nat) {
    order == Last(ids, n) && Spaced(ids, n)
  }

  predicate Recorded(entries: map<RequestId, Entry>, d: Done) {
    d.id in entries && entries[d.id] == Complete(d.fingerprint, d.frames)
  }

  /** The table holds the frames of the last completions. */
  ghost predicate TailRecorded(entries: map<RequestId, Entry>, done: seq<Done>, n: nat) {
    forall k :: 0 <= k < |done| && |done| - n <= k ==> Recorded(entries, done[k])
  }

  /** Each guard completes at most once, and never after it is gone. */
  ghost predicate GuardsFinishOnce(guards: map<nat, Guard>, issued: nat, done: seq<Done>) {
    && (forall g :: g in guards ==> g < issued)
    && (forall k :: 0 <= k < |done| ==> done[k].guard < issued && done[k].guard !in guards)
    && (forall j, k :: 0 <= j < k < |done| ==> done[j].guard != done[k].guard)
  }

  ghost predicate Inv(w: World) {
    && Consistent(w.cache)
    && GuardsOwn(w.cache.entries, w.guards)
    && PendingOwned(w.cache.entries, w.guards)
    && QueueIsTail(w.cache.order, DoneIds(w.done), w.cache.limits.completed)
    && TailRecorded(w.cache.entries, w.done, w.cache.limits.completed)
    && GuardsFinishOnce(w.guards, w.issued, w.done)
  }

  lemma OwnersAfterClaim(entries: map<RequestId, Entry>, guards: map<nat, Guard>, g: nat, id: RequestId, fp: Fingerprint)
    requires GuardsOwn(entries, guards) && PendingOwned(entries, guards)
    requires g !in guards && id !in entries
    ensures GuardsOwn(entries[id := Pending(fp)], guards[g := Guard(id, fp)])
    ensures PendingOwned(entries[id := Pending(fp)], guards[g := Guard(id, fp)])
  {
    var guards' := guards[g := Guard(id, fp)];
    assert g in guards' && guards'[g].id == id;
    forall i | Pends(entries[id := Pending(fp)], i)
      ensures HasOwner(guards', i)
    {
      if i != id {
        assert Pends(entries, i);
        var h :| h in guards && guards[h].id == i;
        assert h in guards' && guards'[h].id == i;
      }
    }
  }

  lemma RecordedAfterClaim(entries: map<RequestId, Entry>, done: seq<Done>, n: nat, id: RequestId, fp: Fingerprint)
    requires TailRecorded(entries, done, n) && id !in entries
    ensures TailRecorded(entries[id := Pending(fp)], done, n)
  {
  }

  lemma ClaimKeepsInv(w: World, id: RequestId, fp: Fingerprint)
    requires Inv(w)
    ensures Inv(Apply(w, DoClaim(id, fp)))
  {
    ClaimKeepsConsistent(w.cache, id, fp);
    if ClaimOutcome(w.cache, id, fp).Owner? {
      OwnersAfterClaim(w.cache.entries, w.guards, w.issued, id, fp);
      RecordedAfterClaim(w.cache.entries, w.done, w.cache.limits.completed, id, fp);
    }
  }

  /** Taking one guard away, with its entry no longer pending, leaves the others as they were. */
  lemma OwnersAfterLeave(entries: map<RequestId, Entry>, guards: map<nat, Guard>, g: nat, entries': map<RequestId, Entry>)
    requires GuardsOwn(entries, guards) && PendingOwned(entries, guards)
    requires g in guards && !Pends(entries', guards[g].id)
    requires forall i :: i != guards[g].id && Pends(entries, i) ==> i in entries' && entries'[i] == entries[i]
    requires forall i :: Pends(entries', i) ==> Pends(entries, i)
    ensures GuardsOwn(entries', guards - {g}) && PendingOwned(entries', guards - {g})
  {
    forall h | h in guards - {g}
      ensures guards[h].id in entries' && entries'[guards[h].id] == Pending(guards[h].fingerprint)
    {
      assert Pends(entries, guards[h].id);
    }
    forall i | Pends(entries', i)
      ensures HasOwner(guards - {g}, i)
    {
      var h :| h in guards && guards[h].id == i;
      assert h in guards - {g} && (guards - {g})[h].id == i;
    }
  }

  /** The table after a completion, in terms of the window alone. */
  ghost function EntriesAfter(entries: map<RequestId, Entry>, d: Done, order: seq<RequestId>, order': seq<RequestId>): map<RequestId, Entry> {
    entries[d.id := Complete(d.fingerprint, d.frames)] - (Elements(order) - Elements(order'))
  }

  lemma RecordedAfterComplete(entries: map<RequestId, Entry>, done: seq<Done>, n: nat, d: Done, order: seq<RequestId>)
    requires TailRecorded(entries, done, n)
    requires Pends(entries, d.id)
    ensures TailRecorded(EntriesAfter(entries, d, order, Last(DoneIds(done + [d]), n)), done + [d], n)
  {
    var done' := done + [d];
    var order' := Last(DoneIds(done'), n);
    forall k | 0 <= k < |done'| && |done'| - n <= k
      ensures Recorded(EntriesAfter(entries, d, order, order'), done'[k])
    {
      InWindow(DoneIds(done'), n, k);
      if k < |done| {
        assert Recorded(entries, done[k]);
      }
    }
  }

  lemma TailAfterComplete(order: seq<RequestId>, done: seq<Done>, n: nat, d: Done)
    requires QueueIsTail(order, DoneIds(done), n) && d.id !in order
    ensures QueueIsTail(Last(order + [d.id], n), DoneIds(done + [d]), n)
  {
    assert DoneIds(done + [d]) == DoneIds(done) + [d.id];
    LastOfPush(DoneIds(done), d.id, n);
    SpacedPush(DoneIds(done), d.id, n);
  }

  lemma CompleteKeepsInv(w: World, g: nat, frames: Frames)
    requires Inv(w) && g in w.guards
    ensures Inv(Apply(w, DoComplete(g, frames)))
  {
    var Guard(id, fp) := w.guards[g];
    var d := Done(id, fp, frames, g);
    var n := w.cache.limits.completed;
    var w' := Apply(w, DoComplete(g, frames));
    CompleteKeepsConsistent(w.cache, id, fp, frames);
    HoldsMeansPending(w.cache, id, fp);
    TailAfterComplete(w.cache.order, w.done, n, d);
    RecordedAfterComplete(w.cache.entries, w.done, n, d, w.cache.order);
    OwnersAfterComplete(w.cache, w.guards, g, frames);
  }

  lemma OwnersAfterComplete(c: Cache, guards: map<nat, Guard>, g: nat, frames: Frames)
    requires Consistent(c) && g in guards
    requires GuardsOwn(c.entries, guards) && PendingOwned(c.entries, guards)
    ensures var c' := AfterComplete(c, guards[g].id, guards[g].fingerprint, frames);
            GuardsOwn(c'.entries, guards - {g}) && PendingOwned(c'.entries, guards - {g})
  {
    var c' := AfterComplete(c, guards[g].id, guards[g].fingerprint, frames);
    forall i | i != guards[g].id && Pends(c.entries, i)
      ensures i in c'.entries && c'.entries[i] == c.entries[i]
    {
      assert i !in CompleteIds(c.entries);
    }
    OwnersAfterLeave(c.entries, guards, g, c'.entries);
  }

  lemma AbandonKeepsInv(w: World, g: nat)
    requires Inv(w) && g in w.guards
    ensures Inv(Apply(w, DoAbandon(g)))
  {
    var Guard(id, fp) := w.guards[g];
    AbandonKeepsConsistent(w.cache, id, fp);
    OwnersAfterLeave(w.cache.entries, w.guards, g, w.cache.entries - {id});
    RecordedAfterAbandon(w.cache.entries, w.done, w.cache.limits.completed, id);
  }

  lemma RecordedAfterAbandon(entries: map<RequestId, Entry>, done: seq<Done>, n: nat, id: RequestId)
    requires TailRecorded(entries, done, n) && Pends(entries, id)
    ensures TailRecorded(entries - {id}, done, n)
  {
  }

  /** Every state any run can reach satisfies the invariant. */
  lemma {:induction false} RunKeepsInv(w: World, actions: seq<Action>, end: World)
    requires Inv(w) && IsRun(w, actions, end)
    ensures Inv(end) && end.cache.limits == w.cache.limits
    decreases |actions|
  {
    if actions != [] {
      match actions[0] {
        case DoClaim(id, fp) => ClaimKeepsInv(w, id, fp);
        case DoComplete(g, frames) => CompleteKeepsInv(w, g, frames);
        case DoAbandon(g) => AbandonKeepsInv(w, g);
      }
      RunKeepsInv(Apply(w, actions[0]), actions[1..], end);
    }
  }

  ghost predicate Reachable(w: World) {
    exists limits: Limits, actions :: limits.completed > 0 && limits.pending > 0 && IsRun(Start(limits), actions, w)
  }

  lemma ReachableInv(w: World)
    requires Reachable(w)
    ensures Inv(w)
  {
    var limits: Limits, actions :|
      limits.completed > 0 && limits.pending > 0 && IsRun(Start(limits), actions, w);
    assert PendingIds(Start(limits).cache.entries) == {};
    RunKeepsInv(Start(limits), actions, w);
  }

  /** The whole answer to a claim, read off the live guards and the completion history alone. */
  ghost predicate ClaimFollowsHistory(w: World, id: RequestId, fp: Fingerprint) {
    var outcome := ClaimOutcome(w.cache, id, fp);
    var n := w.cache.limits.completed;
    // a live owner: the same bytes wait for it, other bytes are refused
    && (forall g :: g in w.guards && w.guards[g].id == id ==>
          outcome == if w.guards[g].fingerprint == fp then Wait else RequestIdConflict)
    // one of the last n completions: the same bytes get its frames, other bytes are refused
    && (forall k :: |w.done| - n <= k < |w.done| && 0 <= k && w.done[k].id == id ==>
          outcome == if w.done[k].fingerprint == fp then Cached(w.done[k].frames) else RequestIdConflict)
    // otherwise, and only then, the request is executed, while there is room for a pending one
    && (!HasOwner(w.guards, id) && id !in Last(DoneIds(w.done), n) <==> outcome.Owner? || outcome.RequestCapacityExceeded?)
    && (outcome.RequestCapacityExceeded? ==> |w.guards| == w.cache.limits.pending)
    && (outcome.Owner? ==> |w.guards| < w.cache.limits.pending)
  }

  /** The number of live guards is the pending counter. */
  lemma GuardsCountPending(w: World)
    requires Inv(w)
    ensures |w.guards| == w.cache.pending == |PendingIds(w.cache.entries)|
  {
    GuardIdsBijection(w.guards);
    GuardIdsArePending(w.cache.entries, w.guards);
  }

  lemma GuardIdsArePending(entries: map<RequestId, Entry>, guards: map<nat, Guard>)
    requires GuardsOwn(entries, guards) && PendingOwned(entries, guards)
    ensures GuardIds(guards) == PendingIds(entries)
  {
    forall i | i in PendingIds(entries)
      ensures i in GuardIds(guards)
    {
      assert Pends(entries, i);
    }
  }

  ghost function GuardIds(guards: map<nat, Guard>): set<RequestId> {
    set g | g in guards :: guards[g].id
  }

  lemma {:induction false} GuardIdsBijection(guards: map<nat, Guard>)
    requires forall g, h :: g in guards && h in guards && guards[g].id == guards[h].id ==> g == h
    ensures |guards| == |GuardIds(guards)|
    decreases |guards|
  {
    if |guards| != 0 {
      var g :| g in guards;
      var rest := guards - {g};
      assert |rest| == |guards| - 1 by { assert rest.Keys == guards.Keys - {g}; }
      GuardIdsBijection(rest);
      forall i | i in GuardIds(guards) && i != guards[g].id
        ensures i in GuardIds(rest)
      {
        var h :| h in guards && guards[h].id == i;
        assert h in rest && rest[h].id == i;
      }
      assert GuardIds(rest) == GuardIds(guards) - {guards[g].id};
      assert guards[g].id in GuardIds(guards);
    }
  }

  /** In every reachable state a claim is answered exactly as the history says; so an identifier
      that completed is executed again only after `completed` other completions. */
  lemma ClaimMeaning(w: World, id: RequestId, fp: Fingerprint)
    requires Reachable(w)
    ensures ClaimFollowsHistory(w, id, fp)
  {
    ReachableInv(w);
    GuardsCountPending(w);
    KnownIdsFromHistory(w, id);
    forall k | |w.done| - w.cache.limits.completed <= k < |w.done| && 0 <= k && w.done[k].id == id
      ensures Recorded(w.cache.entries, w.done[k])
    {
    }
  }

  /** An identifier has an entry exactly when it has a live owner or is among the last completions. */
  lemma KnownIdsFromHistory(w: World, id: RequestId)
    requires Inv(w)
    ensures id in w.cache.entries <==> HasOwner(w.guards, id) || id in Last(DoneIds(w.done), w.cache.limits.completed)
  {
    if id in w.cache.entries && w.cache.entries[id].Complete? {
      assert id in CompleteIds(w.cache.entries);
    }
    if HasOwner(w.guards, id) {
      var g :| g in w.guards && w.guards[g].id == id;
      assert Holds(w.cache, id, w.guards[g].fingerprint);
    }
    if id in w.cache.order {
      assert id in Elements(w.cache.order);
    }
  }

  /** At most one owner per identifier, as many owners as the counter says, and never more than allowed. */
  lemma OneOwner(w: World)
    requires Reachable(w)
    ensures forall g, h :: g in w.guards && h in w.guards && w.guards[g].id == w.guards[h].id ==> g == h
    ensures |w.guards| == w.cache.pending == |PendingIds(w.cache.entries)| <= w.cache.limits.pending
  {
    ReachableInv(w);
    GuardsCountPending(w);
  }

  /** Two completed executions of one identifier have at least `completed` other completions
      between them, and no guard completes twice. */
  lemma CompletionsAreSpaced(w: World)
    requires Reachable(w)
    ensures Spaced(DoneIds(w.done), w.cache.limits.completed)
    ensures forall j, k :: 0 <= j < k < |w.done| ==> w.done[j].guard != w.done[k].guard
  {
    ReachableInv(w);
  }

  /** A guard always still owns its entry when it finishes or is dropped, so the branches of
      completion and drop that find another entry are never taken. */
  lemma GuardsAlwaysHold(w: World, g: nat)
    requires Reachable(w) && g in w.guards
    ensures Holds(w.cache, w.guards[g].id, w.guards[g].fingerprint)
    ensures w.cache.pending > 0
  {
    ReachableInv(w);
    HoldsMeansPending(w.cache, w.guards[g].id, w.guards[g].fingerprint);
  }

  /** Duplicates that waited for the owner get its frames as soon as it completes. */
  lemma WaitersGetTheResult(w: World, g: nat, frames: Frames)
    requires Reachable(w) && g in w.guards
    ensures Enabled(w, DoComplete(g, frames))
    ensures var w' := Apply(w, DoComplete(g, frames));
      ClaimOutcome(w'.cache, w.guards[g].id, w.guards[g].fingerprint) == Cached(frames)
  {
    ReachableInv(w);
    CompleteKeepsInv(w, g, frames);
    var w' := Apply(w, DoComplete(g, frames));
    assert w'.done[|w'.done| - 1].id == w.guards[g].id;
  }

  /** A waiter that wakes later still gets the frames while fewer than `completed` other requests completed since;
      after that the execution is forgotten, and unless it was run again the request is new. */
  lemma LateWaiters(w: World, k: nat)
    requires Reachable(w) && k < |w.done|
    ensures |w.done| - k <= w.cache.limits.completed ==>
              ClaimOutcome(w.cache, w.done[k].id, w.done[k].fingerprint) == Cached(w.done[k].frames)
    ensures |w.done| - k > w.cache.limits.completed && !HasOwner(w.guards, w.done[k].id)
            && (forall j :: k < j < |w.done| ==> w.done[j].id != w.done[k].id) ==>
              w.done[k].id !in w.cache.entries
  {
    ReachableInv(w);
    if |w.done| - k <= w.cache.limits.completed {
      assert Recorded(w.cache.entries, w.done[k]);
    } else {
      KnownIdsFromHistory(w, w.done[k].id);
      SpacedOutside(DoneIds(w.done), w.cache.limits.completed, k);
    }
  }

  /** An element with no later copy is not in a window that starts after it. */
  lemma SpacedOutside(ids: seq<RequestId>, n: nat, k: nat)
    requires k < |ids| && |ids| - k > n && Spaced(ids, n)
    ensures (forall j :: k < j < |ids| ==> ids[j] != ids[k]) ==> ids[k] !in Last(ids, n)
  {
  }
}
