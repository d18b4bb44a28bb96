/** The interaction broker's registry: waiters, staged early responses and resolved identifiers. */
module Interactions {
  import opened Basics
  import opened RecentWindow

  type InteractionId = nat

  /** A waiting slot holds the sending half of channel `sender`. */
  datatype Slot<T> = Waiting(generation: nat, sender: nat) | Staged(value: T)

  datatype Registry<T> = Registry(
    slots: map<InteractionId, Slot<T>>,
    resolved: set<InteractionId>,
    order: seq<InteractionId>,
    nextGeneration: nat,
    maximum: nat)

  datatype Registration<T> = Ready(value: T) | WaitingOn(generation: nat) | Duplicate

  datatype Resolution =
    | Delivered
    | EarlyStaged
    | AlreadyResolved
    | CapacityExceeded(maximum: nat)
    | Expired

  function StagedIds<T>(slots: map<InteractionId, Slot<T>>): (r: set<InteractionId>) {
    set id | id in slots && slots[id].Staged?
  }

  ghost predicate Consistent<T>(r: Registry<T>) {
    && r.maximum > 0
    && NoDup(r.order) && r.resolved == Elements(r.order) && |r.order| <= r.maximum
    && r.slots.Keys !! r.resolved
    && |StagedIds(r.slots)| <= r.maximum
  }

  /** Remembers one more resolved identifier and forgets the oldest beyond the bound. */
  function MarkResolved<T>(r: Registry<T>, id: InteractionId): (r': Registry<T>) {
    var order := Last(if id in r.resolved then r.order else r.order + [id], r.maximum);
    r.(order := order, resolved := Elements(order))
  }

  function RegisterOutcome<T>(r: Registry<T>, id: InteractionId): (o: Registration<T>) {
    if id in r.resolved then Duplicate
    else if id !in r.slots then WaitingOn(r.nextGeneration)
    else if r.slots[id].Staged? then Ready(r.slots[id].value)
    else Duplicate
  }

  function AfterRegister<T>(r: Registry<T>, id: InteractionId, sender: nat): (r': Registry<T>) {
    match RegisterOutcome(r, id)
    case Duplicate => r
    case Ready(_) => MarkResolved(r.(slots := r.slots - {id}), id)
    case WaitingOn(g) =>
      r.(slots := r.slots[id := Waiting(g, sender)], nextGeneration := SaturatingSucc(g))
  }

  /** `open` says whether the receiving half of the waiting slot still exists. */
  function ResolveOutcome<T>(r: Registry<T>, id: InteractionId, open: bool): (o: Resolution) {
    if id in r.resolved then AlreadyResolved
    else if id in r.slots then
      if r.slots[id].Staged? then AlreadyResolved
      else if open then Delivered
      else Expired
    else if |r.slots| >= r.maximum then CapacityExceeded(r.maximum)
    else EarlyStaged
  }

  function AfterResolve<T>(r: Registry<T>, id: InteractionId, value: T, open: bool): (r': Registry<T>) {
    match ResolveOutcome(r, id, open)
    case AlreadyResolved => r
    case CapacityExceeded(_) => r
    case Expired => r.(slots := r.slots - {id})
    case Delivered => MarkResolved(r.(slots := r.slots - {id}), id)
    case EarlyStaged => r.(slots := r.slots[id := Staged(value)])
  }

  function AfterGuardDrop<T>(r: Registry<T>, id: InteractionId, generation: nat): (r': Registry<T>) {
    if id in r.slots && r.slots[id].Waiting? && r.slots[id].generation == generation then
      r.(slots := r.slots - {id})
    else r
  }

  class Broker<T> {
    var slots: map<InteractionId, Slot<T>>
    var resolved: set<InteractionId>
    var resolvedOrder: seq<InteractionId>
    var nextGeneration: nat
    const maximum: nat

    ghost function View(): (r: Registry<T>)
      reads this
    {
      Registry(slots, resolved, resolvedOrder, nextGeneration, maximum)
    }

    constructor (maximum: nat)
      ensures View() == Registry(map[], {}, [], 1, if maximum == 0 then 1 else maximum)
      ensures Consistent(View())
    {
      slots, resolved, resolvedOrder, nextGeneration := map[], {}, [], 1;
      this.maximum := if maximum == 0 then 1 else maximum;
      new;
      assert StagedIds(slots) == {};
    }

    method MarkAsResolved(id: InteractionId)
      requires NoDup(resolvedOrder) && resolved == Elements(resolvedOrder)
      modifies this
      ensures View() == MarkResolved(old(View()), id)
    {
      if id !in resolved {
        ElementsOfPush(resolvedOrder, id);
        resolved := resolved + {id};
        resolvedOrder := resolvedOrder + [id];
      }
      ghost var all := resolvedOrder;
      ghost var k := 0;
      while |resolvedOrder| > maximum
        invariant slots == old(slots) && nextGeneration == old(nextGeneration)
        invariant 0 <= k <= |all| && resolvedOrder == all[k..]
        invariant k > 0 ==> |resolvedOrder| >= maximum
        invariant NoDup(resolvedOrder) && resolved == Elements(resolvedOrder)
        decreases |resolvedOrder|
      {
        ElementsOfTail(resolvedOrder);
        var expired := resolvedOrder[0];
        resolvedOrder := resolvedOrder[1..];
        resolved := resolved - {expired};
        k := k + 1;
      }
      assert resolvedOrder == Last(all, maximum);
    }

    method Register(id: InteractionId, sender: nat) returns (o: Registration<T>)
      requires Consistent(View())
      modifies this
      ensures o == RegisterOutcome(old(View()), id)
      ensures View() == AfterRegister(old(View()), id, sender)
      ensures Consistent(View())
    {
      RegisterKeepsConsistent(View(), id, sender);
      if id in resolved {
        return Duplicate;
      }
      if id in slots {
        match slots[id]
        case Staged(value) => {
          slots := slots - {id};
          MarkAsResolved(id);
          return Ready(value);
        }
        case Waiting(_, _) => {
          return Duplicate;
        }
      }
      var generation := nextGeneration;
      nextGeneration := SaturatingSucc(nextGeneration);
      slots := slots[id := Waiting(generation, sender)];
      return WaitingOn(generation);
    }

    method Resolve(id: InteractionId, value: T, open: bool) returns (o: Resolution)
      requires Consistent(View())
      modifies this
      ensures o == ResolveOutcome(old(View()), id, open)
      ensures View() == AfterResolve(old(View()), id, value, open)
      ensures Consistent(View())
    {
      ResolveKeepsConsistent(View(), id, value, open);
      if id in resolved {
        return AlreadyResolved;
      }
      if id in slots {
        match slots[id]
        case Waiting(_, _) => {
          slots := slots - {id};
          if !open {
            return Expired;
          }
          MarkAsResolved(id);
          return Delivered;
        }
        case Staged(_) => {
          return AlreadyResolved;
        }
      }
      if |slots| >= maximum {
        return CapacityExceeded(maximum);
      }
      slots := slots[id := Staged(value)];
      return EarlyStaged;
    }

    method DropGuard(id: InteractionId, generation: nat)
      requires Consistent(View())
      modifies this
      ensures View() == AfterGuardDrop(old(View()), id, generation)
      ensures Consistent(View())
    {
      DropKeepsConsistent(View(), id, generation);
      if id in slots {
        match slots[id]
        case Waiting(g, _) => {
          if g == generation {
            slots := slots - {id};
          }
        }
        case Staged(_) => {
        }
      }
    }
  }

  lemma FewerStaged<T>(slots: map<InteractionId, Slot<T>>, id: InteractionId)
    ensures |StagedIds(slots - {id})| <= |StagedIds(slots)|
  {
    assert StagedIds(slots - {id}) == StagedIds(slots) - {id};
    if id !in StagedIds(slots) {
      assert StagedIds(slots) - {id} == StagedIds(slots);
    }
  }

  lemma MarkKeepsConsistent<T>(r: Registry<T>, id: InteractionId)
    requires Consistent(r) && id !in r.resolved && id !in r.slots
    ensures Consistent(MarkResolved(r, id))
  {
    WindowAfterPush(r.order, id, r.maximum);
  }

  lemma RegisterKeepsConsistent<T>(r: Registry<T>, id: InteractionId, sender: nat)
    requires Consistent(r)
    ensures Consistent(AfterRegister(r, id, sender))
  {
    match RegisterOutcome(r, id)
    case Duplicate =>
    case Ready(_) =>
      FewerStaged(r.slots, id);
      MarkKeepsConsistent(r.(slots := r.slots - {id}), id);
    case WaitingOn(g) =>
      assert StagedIds(r.slots[id := Waiting(g, sender)]) == StagedIds(r.slots);
  }

  lemma StagedAtMostSlots<T>(slots: map<InteractionId, Slot<T>>)
    ensures |StagedIds(slots)| <= |slots|
  {
    SubsetSize(StagedIds(slots), slots.Keys);
  }

  lemma SubsetSize<X>(a: set<X>, b: set<X>)
    requires a <= b
    ensures |a| <= |b|
  {
    assert b == a + (b - a);
  }

  lemma ResolveKeepsConsistent<T>(r: Registry<T>, id: InteractionId, value: T, open: bool)
    requires Consistent(r)
    ensures Consistent(AfterResolve(r, id, value, open))
  {
    match ResolveOutcome(r, id, open)
    case AlreadyResolved =>
    case CapacityExceeded(_) =>
    case Expired => FewerStaged(r.slots, id);
    case Delivered =>
      FewerStaged(r.slots, id);
      MarkKeepsConsistent(r.(slots := r.slots - {id}), id);
    case EarlyStaged => StagingKeepsConsistent(r, id, value);
  }

  lemma StagingKeepsConsistent<T>(r: Registry<T>, id: InteractionId, value: T)
    requires Consistent(r) && id !in r.resolved && id !in r.slots && |r.slots| < r.maximum
    ensures Consistent(r.(slots := r.slots[id := Staged(value)]))
  {
    StagedAtMostSlots(r.slots);
    assert StagedIds(r.slots[id := Staged(value)]) == StagedIds(r.slots) + {id};
  }

  lemma DropKeepsConsistent<T>(r: Registry<T>, id: InteractionId, generation: nat)
    requires Consistent(r)
    ensures Consistent(AfterGuardDrop(r, id, generation))
  {
    FewerStaged(r.slots, id);
  }

  // ---------------------------------------------------------------------------------------
  // Runs: any interleaving of registrations, responses, abandoned waits and guard drops.

  /** A response, tagged with the number of the `resolve` call that offered it. */
  datatype Response = Response(ticket: nat, value: nat)

  datatype Receiver = Open | Closed | Got(response: Response)

  datatype Waiter = Waiter(id: InteractionId, generation: nat, receiver: Receiver, guarded: bool)

  /** Where a response ended up: waiter `n`, or the `n`-th registration that found it staged. */
  datatype Place = AtWaiter(n: nat) | AtRegistration(n: nat)

  /** One `resolve` call. */
  datatype Offer = Offer(id: InteractionId, value: nat)

  datatype World = World(
    registry: Registry<Response>,
    waiters: seq<Waiter>,             // numbered by order of registration
    gone: set<nat>,                   // waiters whose slot a guard or a late response took away
    calls: nat,                       // resolve calls so far
    offers: seq<Offer>,               // what each of them offered
    immediate: nat,                   // registrations answered from a staged response
    accepted: set<nat>,               // tickets of the calls that were accepted
    placed: map<nat, Place>,          // where each delivered ticket went
    marks: seq<InteractionId>)        // identifiers in the order they became resolved

  datatype Action =
    | DoRegister(id: InteractionId)
    | DoResolve(id: InteractionId, value: nat)
    | DoClose(waiter: nat)
    | DoDropGuard(waiter: nat)

  function Start(maximum: nat): (w: World) {
    World(Registry(map[], {}, [], 1, if maximum == 0 then 1 else maximum), [], {}, 0, [], 0, {}, map[], [])
  }

  predicate Enabled(w: World, a: Action) {
    match a
    case DoRegister(_) => true
    case DoResolve(_, _) => true
    case DoClose(n) => n < |w.waiters|
    case DoDropGuard(n) => n < |w.waiters| && w.waiters[n].guarded
  }

  /** The waiting slot's receiver still exists. */
  predicate ReceiverOpen(w: World, id: InteractionId) {
    && id in w.registry.slots && w.registry.slots[id].Waiting?
    && w.registry.slots[id].sender < |w.waiters|
    && w.waiters[w.registry.slots[id].sender].receiver == Open
  }

  /** The waiter that holds the slot of this identifier, 0 if none does. */
  function SenderOf(r: Registry<Response>, id: InteractionId): (n: nat) {
    if id in r.slots && r.slots[id].Waiting? then r.slots[id].sender else 0
  }

  function Apply(w: World, a: Action): (w': World)
    requires Enabled(w, a)
  {
    match a
    case DoRegister(id) =>
      var next := w.(registry := AfterRegister(w.registry, id, |w.waiters|));
      (match RegisterOutcome(w.registry, id)
       case Duplicate => next
       case Ready(response) =>
         next.(placed := w.placed[response.ticket := AtRegistration(w.immediate)],
               immediate := w.immediate + 1,
               marks := w.marks + [id])
       case WaitingOn(g) => next.(waiters := w.waiters + [Waiter(id, g, Open, true)]))
    case DoResolve(id, value) =>
      var open := ReceiverOpen(w, id);
      var response := Response(w.calls, value);
      var next := w.(registry := AfterResolve(w.registry, id, response, open),
                     calls := w.calls + 1, offers := w.offers + [Offer(id, value)]);
      (match ResolveOutcome(w.registry, id, open)
       case Delivered =>
         // only reached with an open receiver
         if !open then next else
         var n := w.registry.slots[id].sender;
         next.(waiters := w.waiters[n := w.waiters[n].(receiver := Got(response))],
               accepted := w.accepted + {w.calls},
               placed := w.placed[w.calls := AtWaiter(n)],
               marks := w.marks + [id])
       case EarlyStaged => next.(accepted := w.accepted + {w.calls})
       case AlreadyResolved => next
       case CapacityExceeded(_) => next
       case Expired => next.(gone := w.gone + {SenderOf(w.registry, id)}))
    case DoClose(n) =>
      if w.waiters[n].receiver == Open then w.(waiters := w.waiters[n := w.waiters[n].(receiver := Closed)]) else w
    case DoDropGuard(n) =>
      var next := AfterGuardDrop(w.registry, w.waiters[n].id, w.waiters[n].generation);
      w.(registry := next,
         waiters := w.waiters[n := w.waiters[n].(guarded := false)],
         gone := if next == w.registry then w.gone else w.gone + {SenderOf(w.registry, w.waiters[n].id)})
  }

  /** The state after a run, if every action was possible. */
  datatype Outcome = Stuck | At(world: World)

  function Exec(w: World, actions: seq<Action>): (o: Outcome) {
    if actions == [] then At(w)
    else
      var before := Exec(w, actions[..|actions| - 1]);
      var a := actions[|actions| - 1];
      if before.At? && Enabled(before.world, a) then At(Apply(before.world, a)) else Stuck
  }

  ghost predicate Reachable(w: World) {
    exists maximum: nat, actions :: Exec(Start(maximum), actions) == At(w)
  }

  // --- the invariant, clause by clause ---

  /** The remembered identifiers are the tail of all that were ever resolved. */
  ghost predicate OrderIsTail(order: seq<InteractionId>, marks: seq<InteractionId>, n: nat) {
    order == Last(marks, n) && Spaced(marks, n)
  }

  /** Generations count registrations, up to saturation. */
  ghost predicate GenerationsCount(nextGeneration: nat, waiters: seq<Waiter>) {
    && nextGeneration == Generation(|waiters|)
    && (forall n :: 0 <= n < |waiters| ==> waiters[n].generation == Generation(n))
  }

  /** The generation of the `n`-th waiter. */
  function Generation(n: nat): (g: nat) {
    if n + 1 <= U64_MAX then n + 1 else U64_MAX
  }

  /** A waiting slot belongs to the newest waiter for its identifier, which has no response yet. */
  predicate SlotOwned(slot: Slot<Response>, id: InteractionId, waiters: seq<Waiter>) {
    slot.Waiting? ==>
      && slot.sender < |waiters|
      && waiters[slot.sender].id == id
      && waiters[slot.sender].generation == slot.generation
      && !waiters[slot.sender].receiver.Got?
  }

  ghost predicate SlotsOwned(slots: map<InteractionId, Slot<Response>>, waiters: seq<Waiter>) {
    && (forall id :: id in slots ==> SlotOwned(slots[id], id, waiters))
    && (forall id, n :: id in slots && slots[id].Waiting? && 0 <= n < |waiters| && waiters[n].id == id ==>
          n <= slots[id].sender)
  }

  /** The ticket of a staged response is accepted and not delivered, and no two slots stage one ticket. */
  ghost predicate StagedPending(slots: map<InteractionId, Slot<Response>>, accepted: set<nat>, placed: map<nat, Place>) {
    && (forall id :: id in slots && slots[id].Staged? ==> slots[id].value.ticket in accepted && slots[id].value.ticket !in placed)
    && (forall id, jd :: id in slots && jd in slots && SameTicket(slots[id], slots[jd]) ==> id == jd)
  }

  predicate SameTicket(a: Slot<Response>, b: Slot<Response>) {
    a.Staged? && b.Staged? && a.value.ticket == b.value.ticket
  }

  ghost predicate StagedAs(slots: map<InteractionId, Slot<Response>>, t: nat) {
    exists id :: id in slots && slots[id].Staged? && slots[id].value.ticket == t
  }

  /** Every accepted response was delivered or is still staged. */
  ghost predicate NothingLost(slots: map<InteractionId, Slot<Response>>, accepted: set<nat>, placed: map<nat, Place>) {
    && placed.Keys <= accepted
    && (forall t :: t in accepted ==> t in placed || StagedAs(slots, t))
  }

  /** Tickets and places are used once. */
  ghost predicate PlacesDistinct(placed: map<nat, Place>, immediate: nat) {
    && (forall t, u :: t in placed && u in placed && placed[t] == placed[u] ==> t == u)
    && (forall t :: t in placed && placed[t].AtRegistration? ==> placed[t].n < immediate)
  }

  /** A waiter holds a response exactly when that response is recorded as delivered to it. */
  ghost predicate PlacesHold(placed: map<nat, Place>, waiters: seq<Waiter>) {
    && (forall t :: t in placed && placed[t].AtWaiter? ==>
          placed[t].n < |waiters| && waiters[placed[t].n].receiver.Got? && waiters[placed[t].n].receiver.response.ticket == t)
  }

  ghost predicate TicketsIssued(accepted: set<nat>, calls: nat) {
    forall t :: t in accepted ==> t < calls
  }

  ghost predicate Inv(w: World) {
    && Consistent(w.registry)
    && OrderIsTail(w.registry.order, w.marks, w.registry.maximum)
    && GenerationsCount(w.registry.nextGeneration, w.waiters)
    && SlotsOwned(w.registry.slots, w.waiters)
    && StagedPending(w.registry.slots, w.accepted, w.placed)
    && NothingLost(w.registry.slots, w.accepted, w.placed)
    && PlacesDistinct(w.placed, w.immediate)
    && PlacesHold(w.placed, w.waiters)
    && TicketsIssued(w.accepted, w.calls)
  }

  // --- what taking a slot away keeps ---

  lemma SlotsOwnedRemove(slots: map<InteractionId, Slot<Response>>, waiters: seq<Waiter>, id: InteractionId)
    requires SlotsOwned(slots, waiters)
    ensures SlotsOwned(slots - {id}, waiters)
  {
  }

  lemma WaitingRemove(slots: map<InteractionId, Slot<Response>>, accepted: set<nat>, placed: map<nat, Place>, id: InteractionId)
    requires StagedPending(slots, accepted, placed) && NothingLost(slots, accepted, placed)
    requires id in slots && slots[id].Waiting?
    ensures StagedPending(slots - {id}, accepted, placed) && NothingLost(slots - {id}, accepted, placed)
  {
    forall t | t in accepted && t !in placed
      ensures StagedAs(slots - {id}, t)
    {
      var i :| i in slots && slots[i].Staged? && slots[i].value.ticket == t;
      assert i in slots - {id} && (slots - {id})[i] == slots[i];
    }
  }

  lemma StagedRemove(slots: map<InteractionId, Slot<Response>>, accepted: set<nat>, placed: map<nat, Place>, id: InteractionId, p: Place)
    requires StagedPending(slots, accepted, placed) && NothingLost(slots, accepted, placed)
    requires id in slots && slots[id].Staged?
    ensures var placed' := placed[slots[id].value.ticket := p];
            StagedPending(slots - {id}, accepted, placed') && NothingLost(slots - {id}, accepted, placed')
  {
    var t := slots[id].value.ticket;
    forall i | i in slots - {id} && slots[i].Staged?
      ensures slots[i].value.ticket != t
    {
      assert !SameTicket(slots[i], slots[id]);
    }
    forall u | u in accepted && u !in placed[t := p]
      ensures StagedAs(slots - {id}, u)
    {
      var i :| i in slots && slots[i].Staged? && slots[i].value.ticket == u;
      assert i in slots - {id} && (slots - {id})[i] == slots[i];
    }
  }

  lemma TailAfterMark(order: seq<InteractionId>, marks: seq<InteractionId>, n: nat, id: InteractionId)
    requires OrderIsTail(order, marks, n) && id !in order
    ensures OrderIsTail(Last(order + [id], n), marks + [id], n)
  {
    LastOfPush(marks, id, n);
    SpacedPush(marks, id, n);
  }

  // --- registration ---

  lemma SlotsOwnedAdd(slots: map<InteractionId, Slot<Response>>, waiters: seq<Waiter>, id: InteractionId, g: nat)
    requires SlotsOwned(slots, waiters) && id !in slots
    ensures SlotsOwned(slots[id := Waiting(g, |waiters|)], waiters + [Waiter(id, g, Open, true)])
  {
    var slots' := slots[id := Waiting(g, |waiters|)];
    var waiters' := waiters + [Waiter(id, g, Open, true)];
    forall i | i in slots'
      ensures SlotOwned(slots'[i], i, waiters')
    {
      assert i != id ==> SlotOwned(slots[i], i, waiters);
    }
  }

  lemma WaitingAdd(slots: map<InteractionId, Slot<Response>>, accepted: set<nat>, placed: map<nat, Place>, id: InteractionId, slot: Slot<Response>)
    requires StagedPending(slots, accepted, placed) && NothingLost(slots, accepted, placed)
    requires id !in slots && slot.Waiting?
    ensures StagedPending(slots[id := slot], accepted, placed) && NothingLost(slots[id := slot], accepted, placed)
  {
    forall t | t in accepted && t !in placed
      ensures StagedAs(slots[id := slot], t)
    {
      var i :| i in slots && slots[i].Staged? && slots[i].value.ticket == t;
      assert i in slots[id := slot] && slots[id := slot][i] == slots[i];
    }
  }

  lemma RegisterKeepsInv(w: World, id: InteractionId)
    requires Inv(w)
    ensures Inv(Apply(w, DoRegister(id)))
  {
    RegisterKeepsConsistent(w.registry, id, |w.waiters|);
    match RegisterOutcome(w.registry, id)
    case Duplicate =>
    case Ready(response) =>
      TailAfterMark(w.registry.order, w.marks, w.registry.maximum, id);
      SlotsOwnedRemove(w.registry.slots, w.waiters, id);
      StagedRemove(w.registry.slots, w.accepted, w.placed, id, AtRegistration(w.immediate));
      PlacesAfterImmediate(w.placed, w.immediate, w.waiters, response.ticket);
    case WaitingOn(g) =>
      SlotsOwnedAdd(w.registry.slots, w.waiters, id, g);
      WaitingAdd(w.registry.slots, w.accepted, w.placed, id, Waiting(g, |w.waiters|));
      GenerationsAfterRegister(w.registry.nextGeneration, w.waiters, id);
      PlacesAfterRegister(w.placed, w.waiters, Waiter(id, g, Open, true));
  }

  lemma GenerationsAfterRegister(next: nat, waiters: seq<Waiter>, id: InteractionId)
    requires GenerationsCount(next, waiters)
    ensures GenerationsCount(SaturatingSucc(next), waiters + [Waiter(id, next, Open, true)])
  {
  }

  lemma PlacesAfterRegister(placed: map<nat, Place>, waiters: seq<Waiter>, waiter: Waiter)
    requires PlacesHold(placed, waiters)
    ensures PlacesHold(placed, waiters + [waiter])
  {
  }

  lemma PlacesAfterImmediate(placed: map<nat, Place>, immediate: nat, waiters: seq<Waiter>, t: nat)
    requires PlacesDistinct(placed, immediate) && PlacesHold(placed, waiters)
    requires t !in placed
    ensures PlacesDistinct(placed[t := AtRegistration(immediate)], immediate + 1)
    ensures PlacesHold(placed[t := AtRegistration(immediate)], waiters)
  {
  }

  // --- responses ---

  lemma StagedAdd(slots: map<InteractionId, Slot<Response>>, accepted: set<nat>, placed: map<nat, Place>, calls: nat, id: InteractionId, value: nat)
    requires StagedPending(slots, accepted, placed) && NothingLost(slots, accepted, placed)
    requires TicketsIssued(accepted, calls) && id !in slots
    ensures var slots' := slots[id := Staged(Response(calls, value))];
            StagedPending(slots', accepted + {calls}, placed) && NothingLost(slots', accepted + {calls}, placed)
  {
    var slots' := slots[id := Staged(Response(calls, value))];
    assert calls !in accepted;
    assert slots'[id].value.ticket == calls;
    forall t | t in accepted && t !in placed
      ensures StagedAs(slots', t)
    {
      var i :| i in slots && slots[i].Staged? && slots[i].value.ticket == t;
      assert i in slots' && slots'[i] == slots[i];
    }
  }

  lemma SlotsOwnedStage(slots: map<InteractionId, Slot<Response>>, waiters: seq<Waiter>, id: InteractionId, response: Response)
    requires SlotsOwned(slots, waiters) && id !in slots
    ensures SlotsOwned(slots[id := Staged(response)], waiters)
  {
  }

  /** The waiter that owned slot `id` receives the response; no other slot is touched. */
  lemma SlotsOwnedDeliver(slots: map<InteractionId, Slot<Response>>, waiters: seq<Waiter>, id: InteractionId, response: Response)
    requires SlotsOwned(slots, waiters) && id in slots && slots[id].Waiting?
    requires slots[id].sender < |waiters|
    ensures var n := slots[id].sender;
            SlotsOwned(slots - {id}, waiters[n := waiters[n].(receiver := Got(response))])
  {
    var n := slots[id].sender;
    assert SlotOwned(slots[id], id, waiters);
    var waiters' := waiters[n := waiters[n].(receiver := Got(response))];
    forall i | i in slots - {id}
      ensures SlotOwned(slots[i], i, waiters')
    {
      assert SlotOwned(slots[i], i, waiters);
    }
  }

  lemma PlacesAfterDeliver(placed: map<nat, Place>, immediate: nat, waiters: seq<Waiter>, n: nat, response: Response)
    requires PlacesDistinct(placed, immediate) && PlacesHold(placed, waiters)
    requires response.ticket !in placed && n < |waiters| && !waiters[n].receiver.Got?
    ensures PlacesDistinct(placed[response.ticket := AtWaiter(n)], immediate)
    ensures PlacesHold(placed[response.ticket := AtWaiter(n)], waiters[n := waiters[n].(receiver := Got(response))])
  {
  }

  lemma AcceptDelivered(slots: map<InteractionId, Slot<Response>>, accepted: set<nat>, placed: map<nat, Place>, calls: nat, p: Place)
    requires StagedPending(slots, accepted, placed) && NothingLost(slots, accepted, placed)
    requires TicketsIssued(accepted, calls)
    ensures StagedPending(slots, accepted + {calls}, placed[calls := p])
    ensures NothingLost(slots, accepted + {calls}, placed[calls := p])
  {
  }

  lemma GenerationsUnchanged(next: nat, waiters: seq<Waiter>, n: nat, waiter: Waiter)
    requires GenerationsCount(next, waiters) && n < |waiters| && waiter.generation == waiters[n].generation
    ensures GenerationsCount(next, waiters[n := waiter])
  {
  }

  lemma DeliverKeepsInv(w: World, id: InteractionId, value: nat)
    requires Inv(w) && ResolveOutcome(w.registry, id, ReceiverOpen(w, id)) == Delivered
    ensures Inv(Apply(w, DoResolve(id, value)))
  {
    var response := Response(w.calls, value);
    var n := w.registry.slots[id].sender;
    ResolveKeepsConsistent(w.registry, id, response, true);
    TailAfterMark(w.registry.order, w.marks, w.registry.maximum, id);
    SlotsOwnedDeliver(w.registry.slots, w.waiters, id, response);
    WaitingRemove(w.registry.slots, w.accepted, w.placed, id);
    AcceptDelivered(w.registry.slots - {id}, w.accepted, w.placed, w.calls, AtWaiter(n));
    PlacesAfterDeliver(w.placed, w.immediate, w.waiters, n, response);
    GenerationsUnchanged(w.registry.nextGeneration, w.waiters, n, w.waiters[n].(receiver := Got(response)));
  }

  lemma ResolveKeepsInv(w: World, id: InteractionId, value: nat)
    requires Inv(w)
    ensures Inv(Apply(w, DoResolve(id, value)))
  {
    var open := ReceiverOpen(w, id);
    match ResolveOutcome(w.registry, id, open)
    case Delivered => DeliverKeepsInv(w, id, value);
    case EarlyStaged =>
      ResolveKeepsConsistent(w.registry, id, Response(w.calls, value), open);
      SlotsOwnedStage(w.registry.slots, w.waiters, id, Response(w.calls, value));
      StagedAdd(w.registry.slots, w.accepted, w.placed, w.calls, id, value);
    case Expired =>
      ResolveKeepsConsistent(w.registry, id, Response(w.calls, value), open);
      SlotsOwnedRemove(w.registry.slots, w.waiters, id);
      WaitingRemove(w.registry.slots, w.accepted, w.placed, id);
    case AlreadyResolved =>
    case CapacityExceeded(_) =>
  }

  // --- abandoned waits and guard drops ---

  /** Changing a waiter without giving it a response or a new identity disturbs nothing. */
  lemma WaiterTouched(slots: map<InteractionId, Slot<Response>>, placed: map<nat, Place>, waiters: seq<Waiter>, n: nat, waiter: Waiter)
    requires SlotsOwned(slots, waiters) && PlacesHold(placed, waiters) && n < |waiters|
    requires waiter.id == waiters[n].id && waiter.generation == waiters[n].generation
    requires waiter.receiver == waiters[n].receiver || (waiters[n].receiver == Open && waiter.receiver == Closed)
    ensures SlotsOwned(slots, waiters[n := waiter]) && PlacesHold(placed, waiters[n := waiter])
  {
    forall i | i in slots
      ensures SlotOwned(slots[i], i, waiters[n := waiter])
    {
      assert SlotOwned(slots[i], i, waiters);
    }
  }

  lemma CloseKeepsInv(w: World, n: nat)
    requires Inv(w) && n < |w.waiters|
    ensures Inv(Apply(w, DoClose(n)))
  {
    if w.waiters[n].receiver == Open {
      var waiter := w.waiters[n].(receiver := Closed);
      WaiterTouched(w.registry.slots, w.placed, w.waiters, n, waiter);
      GenerationsUnchanged(w.registry.nextGeneration, w.waiters, n, waiter);
    }
  }

  lemma DropGuardKeepsInv(w: World, n: nat)
    requires Inv(w) && n < |w.waiters| && w.waiters[n].guarded
    ensures Inv(Apply(w, DoDropGuard(n)))
  {
    var id := w.waiters[n].id;
    var waiter := w.waiters[n].(guarded := false);
    var slots' := AfterGuardDrop(w.registry, id, w.waiters[n].generation).slots;
    DropKeepsConsistent(w.registry, id, w.waiters[n].generation);
    if slots' != w.registry.slots {
      SlotsOwnedRemove(w.registry.slots, w.waiters, id);
      WaitingRemove(w.registry.slots, w.accepted, w.placed, id);
    }
    WaiterTouched(slots', w.placed, w.waiters, n, waiter);
    GenerationsUnchanged(w.registry.nextGeneration, w.waiters, n, waiter);
  }

  lemma StepKeepsInv(w: World, a: Action)
    requires Inv(w) && Enabled(w, a)
    ensures Inv(Apply(w, a))
  {
    match a
    case DoRegister(id) => RegisterKeepsInv(w, id);
    case DoResolve(id, value) => ResolveKeepsInv(w, id, value);
    case DoClose(n) => CloseKeepsInv(w, n);
    case DoDropGuard(n) => DropGuardKeepsInv(w, n);
  }

  lemma StartInv(maximum: nat)
    ensures Inv(Start(maximum))
  {
    assert StagedIds(Start(maximum).registry.slots) == {};
  }

  lemma {:induction false} RunKeepsInv(maximum: nat, actions: seq<Action>)
    requires Exec(Start(maximum), actions).At?
    ensures Inv(Exec(Start(maximum), actions).world)
  {
    if actions == [] {
      StartInv(maximum);
    } else {
      RunKeepsInv(maximum, actions[..|actions| - 1]);
      StepKeepsInv(Exec(Start(maximum), actions[..|actions| - 1]).world, actions[|actions| - 1]);
    }
  }

  lemma ReachableInv(w: World)
    requires Reachable(w)
    ensures Inv(w)
  {
    var maximum: nat, actions :| Exec(Start(maximum), actions) == At(w);
    RunKeepsInv(maximum, actions);
  }

  // --- the results ---

  /** Conservation: the accepted responses are exactly the delivered and the staged ones, no
      response is both, and no place (a waiter or an immediate registration) gets two. */
  lemma AcceptedReachesOnePlace(w: World)
    requires Reachable(w)
    ensures forall t :: t in w.accepted <==> t in w.placed || StagedAs(w.registry.slots, t)
    ensures forall t :: t in w.placed ==> !StagedAs(w.registry.slots, t)
    ensures forall t, u :: t in w.placed && u in w.placed && w.placed[t] == w.placed[u] ==> t == u
  {
    ReachableInv(w);
  }

  /** Waiting or staged identifiers are never among the resolved, and the early responses held
      never exceed the bound. */
  lemma SlotsAndResolvedApart(w: World)
    requires Reachable(w)
    ensures w.registry.slots.Keys !! w.registry.resolved
    ensures |StagedIds(w.registry.slots)| <= w.registry.maximum
  {
    ReachableInv(w);
  }

  /** Resolved identifiers are forgotten oldest first: what is remembered is always the tail of
      what was resolved, so an identifier is resolved again only after `maximum` others. */
  lemma ResolvedForgottenInOrder(w: World)
    requires Reachable(w)
    ensures w.registry.order == Last(w.marks, w.registry.maximum)
    ensures w.registry.resolved == Elements(w.registry.order)
    ensures Spaced(w.marks, w.registry.maximum)
  {
    ReachableInv(w);
  }

  /** Dropping waiter `n`'s guard takes away a later waiter's slot exactly when `n` was registered
      after the generation counter had saturated: never within the first 2^64 - 2 registrations. */
  lemma OldGuardSparesNewWaiter(w: World, n: nat)
    requires Reachable(w) && Enabled(w, DoDropGuard(n))
    requires w.waiters[n].id in w.registry.slots
    requires w.registry.slots[w.waiters[n].id].Waiting? && w.registry.slots[w.waiters[n].id].sender != n
    ensures n < w.registry.slots[w.waiters[n].id].sender
    ensures w.waiters[n].id !in Apply(w, DoDropGuard(n)).registry.slots <==> n >= U64_MAX - 1
  {
    ReachableInv(w);
    var id := w.waiters[n].id;
    assert SlotOwned(w.registry.slots[id], id, w.waiters);
  }

  /** A guard does take away the slot of its own waiter. */
  lemma OwnGuardRemovesWaiter(w: World, n: nat)
    requires Reachable(w) && Enabled(w, DoDropGuard(n))
    requires w.waiters[n].id in w.registry.slots
    requires w.registry.slots[w.waiters[n].id].Waiting? && w.registry.slots[w.waiters[n].id].sender == n
    ensures w.waiters[n].id !in Apply(w, DoDropGuard(n)).registry.slots
  {
    ReachableInv(w);
    var id := w.waiters[n].id;
    assert SlotOwned(w.registry.slots[id], id, w.waiters);
  }

  lemma RegisterNew(w: World, id: InteractionId)
    requires Reachable(w) && id !in w.registry.slots && id !in w.registry.resolved
    ensures Reachable(Apply(w, DoRegister(id)))
    ensures var r := Apply(w, DoRegister(id)).registry;
            r.slots.Keys == w.registry.slots.Keys + {id} && r.resolved == w.registry.resolved && r.maximum == w.registry.maximum
  {
    ReachableStep(w, DoRegister(id));
  }

  /** Waiting slots are not bounded: one more registration than the bound is possible. */
  lemma WaitingMayExceedMaximum()
    ensures exists w :: Reachable(w) && |w.registry.slots| > w.registry.maximum
  {
    var w0 := Start(1);
    assert Exec(w0, []) == At(w0);
    assert Reachable(w0);
    hide Exec;
    hide Reachable;
    RegisterNew(w0, 7);
    var w1 := Apply(w0, DoRegister(7));
    assert w1.registry.slots.Keys == {7} && w1.registry.resolved == {} && w1.registry.maximum == 1;
    hide Apply;
    hide Start;
    RegisterNew(w1, 8);
    var w2 := Apply(w1, DoRegister(8));
    assert |w2.registry.slots.Keys| == |{7, 8}|;
  }

  lemma ReachableStep(w: World, a: Action)
    requires Reachable(w) && Enabled(w, a)
    ensures Reachable(Apply(w, a))
  {
    var maximum: nat, actions :| Exec(Start(maximum), actions) == At(w);
    assert (actions + [a])[..|actions|] == actions;
    assert Exec(Start(maximum), actions + [a]) == At(Apply(w, a));
  }

  /** Any number of waits can come and go. */
  lemma {:induction false} ManyWaits(k: nat) returns (w: World)
    ensures Reachable(w) && |w.waiters| == k
    ensures w.registry == Registry(map[], {}, [], Generation(k), 1)
  {
    if k == 0 {
      w := Start(1);
      assert Exec(Start(1), []) == At(w);
    } else {
      var before := ManyWaits(k - 1);
      ReachableStep(before, DoRegister(7));
      var waiting := Apply(before, DoRegister(7));
      ReachableStep(waiting, DoDropGuard(k - 1));
      w := Apply(waiting, DoDropGuard(k - 1));
      assert w.registry.slots == map[];
    }
  }

  /** A wait that expired leaves its guard behind. */
  lemma ExpiredWait(before: World) returns (w: World)
    requires Reachable(before) && before.registry == Registry(map[], {}, [], Generation(|before.waiters|), 1)
    ensures Reachable(w) && w.registry == Registry(map[], {}, [], Generation(|before.waiters| + 1), 1)
    ensures w.waiters == before.waiters + [Waiter(7, Generation(|before.waiters|), Closed, true)]
  {
    var n := |before.waiters|;
    ReachableStep(before, DoRegister(7));
    var w1 := Apply(before, DoRegister(7));
    assert w1.registry.slots == map[7 := Waiting(Generation(n), n)];
    ReachableStep(w1, DoClose(n));
    var w2 := Apply(w1, DoClose(n));
    assert w2.registry == w1.registry && !ReceiverOpen(w2, 7);
    ReachableStep(w2, DoResolve(7, 0));
    w := Apply(w2, DoResolve(7, 0));
    assert w.registry.slots == map[];
  }

  /** The saturated case happens: after 2^64 - 2 waits, a guard left over from an expired wait
      removes the slot of a newer waiter for the same identifier. */
  lemma SaturatedGuardHitsNewWaiter() returns (w: World, n: nat)
    ensures Reachable(w) && Enabled(w, DoDropGuard(n))
    ensures w.waiters[n].id in w.registry.slots && w.registry.slots[w.waiters[n].id].Waiting?
    ensures w.registry.slots[w.waiters[n].id].sender == n + 1
    ensures w.waiters[n].id !in Apply(w, DoDropGuard(n)).registry.slots
  {
    n := U64_MAX - 1;
    var before := ManyWaits(n);
    var expired := ExpiredWait(before);
    ReachableStep(expired, DoRegister(7));
    w := Apply(expired, DoRegister(7));
    assert w.waiters[n].id == 7 && w.waiters[n].generation == U64_MAX;
    assert w.registry.slots == map[7 := Waiting(U64_MAX, n + 1)];
  }
}
