/** How the broker answers, from what was registered and offered before: in every run. */
module InteractionAnswers {
  import opened Basics
  import opened RecentWindow
  import opened Interactions

  // --- the history's own terms ---

  /** Waiter `n` still waits for this identifier: no response came and its slot was not taken away. */
  predicate Waits(waiters: seq<Waiter>, gone: set<nat>, id: InteractionId, n: nat) {
    n < |waiters| && waiters[n].id == id && !waiters[n].receiver.Got? && n !in gone
  }

  /** Call `t` offered a response to this identifier that was accepted and has reached nobody yet. */
  predicate Held(offers: seq<Offer>, accepted: set<nat>, placed: map<nat, Place>, id: InteractionId, t: nat) {
    t in accepted && t !in placed && t < |offers| && offers[t].id == id
  }

  ghost predicate SomeoneWaits(w: World, id: InteractionId) {
    exists n: nat :: Waits(w.waiters, w.gone, id, n)
  }

  ghost predicate SomethingHeld(w: World, id: InteractionId) {
    exists t: nat :: Held(w.offers, w.accepted, w.placed, id, t)
  }

  /** The identifier was resolved within the last `maximum` resolutions. */
  predicate RecentlyResolved(w: World, id: InteractionId) {
    id in Last(w.marks, w.registry.maximum)
  }

  // --- the registry agrees with it ---

  predicate WaitsAt(slots: map<InteractionId, Slot<Response>>, id: InteractionId, n: nat) {
    id in slots && slots[id].Waiting? && slots[id].sender == n
  }

  predicate HeldAt(slots: map<InteractionId, Slot<Response>>, id: InteractionId, t: nat) {
    id in slots && slots[id].Staged? && slots[id].value.ticket == t
  }

  ghost predicate WaitersMatch(slots: map<InteractionId, Slot<Response>>, waiters: seq<Waiter>, gone: set<nat>) {
    && (forall id, n: nat :: Waits(waiters, gone, id, n) <==> WaitsAt(slots, id, n))
    && (forall n :: n in gone ==> n < |waiters|)
  }

  ghost predicate OffersMatch(slots: map<InteractionId, Slot<Response>>, offers: seq<Offer>, accepted: set<nat>, placed: map<nat, Place>) {
    && (forall id, t: nat :: Held(offers, accepted, placed, id, t) <==> HeldAt(slots, id, t))
    && (forall id :: id in slots && slots[id].Staged? ==> Offered(offers, id, slots[id].value))
  }

  /** This response is the one that its call offered to this identifier. */
  predicate Offered(offers: seq<Offer>, id: InteractionId, response: Response) {
    response.ticket < |offers| && offers[response.ticket] == Offer(id, response.value)
  }

  predicate GotOffered(waiter: Waiter, offers: seq<Offer>) {
    waiter.receiver.Got? ==> Offered(offers, waiter.id, waiter.receiver.response)
  }

  ghost predicate AllGotOffered(waiters: seq<Waiter>, offers: seq<Offer>) {
    forall n :: 0 <= n < |waiters| ==> GotOffered(waiters[n], offers)
  }

  ghost predicate Matches(w: World) {
    && |w.offers| == w.calls
    && WaitersMatch(w.registry.slots, w.waiters, w.gone)
    && OffersMatch(w.registry.slots, w.offers, w.accepted, w.placed)
    && AllGotOffered(w.waiters, w.offers)
  }

  // --- every step keeps it ---

  lemma RegisterKeepsMatches(w: World, id: InteractionId)
    requires Inv(w) && Matches(w)
    ensures Matches(Apply(w, DoRegister(id)))
  {
    hide WaitersMatch;
    hide OffersMatch;
    hide Inv;
    match RegisterOutcome(w.registry, id)
    case Duplicate =>
    case Ready(_) =>
      TakeHeld(w.registry.slots, w.offers, w.accepted, w.placed, id, AtRegistration(w.immediate));
      HeldLeaves(w.registry.slots, w.waiters, w.gone, id);
    case WaitingOn(g) =>
      NewWaiter(w.registry.slots, w.waiters, w.gone, id, g);
      OthersHeld(w.registry.slots, w.offers, w.accepted, w.placed, id, Waiting(g, |w.waiters|));
  }

  lemma HeldLeaves(slots: map<InteractionId, Slot<Response>>, waiters: seq<Waiter>, gone: set<nat>, id: InteractionId)
    requires WaitersMatch(slots, waiters, gone) && id in slots && slots[id].Staged?
    ensures WaitersMatch(slots - {id}, waiters, gone)
  {
    forall i, n: nat
      ensures WaitsAt(slots - {id}, i, n) <==> WaitsAt(slots, i, n)
    {
    }
  }

  lemma TakeHeld(slots: map<InteractionId, Slot<Response>>, offers: seq<Offer>, accepted: set<nat>, placed: map<nat, Place>,
    id: InteractionId, p: Place)
    requires OffersMatch(slots, offers, accepted, placed) && id in slots && slots[id].Staged?
    ensures OffersMatch(slots - {id}, offers, accepted, placed[slots[id].value.ticket := p])
  {
    var ticket := slots[id].value.ticket;
    var slots', placed' := slots - {id}, placed[ticket := p];
    assert HeldAt(slots, id, ticket);
    forall i, t: nat
      ensures Held(offers, accepted, placed', i, t) <==> HeldAt(slots', i, t)
    {
      assert Held(offers, accepted, placed, i, t) <==> HeldAt(slots, i, t);
      assert Held(offers, accepted, placed, id, ticket);
    }
  }

  lemma NewWaiter(slots: map<InteractionId, Slot<Response>>, waiters: seq<Waiter>, gone: set<nat>, id: InteractionId, g: nat)
    requires WaitersMatch(slots, waiters, gone) && id !in slots
    ensures WaitersMatch(slots[id := Waiting(g, |waiters|)], waiters + [Waiter(id, g, Open, true)], gone)
  {
    var slots', waiters' := slots[id := Waiting(g, |waiters|)], waiters + [Waiter(id, g, Open, true)];
    forall i, n: nat
      ensures Waits(waiters', gone, i, n) <==> WaitsAt(slots', i, n)
    {
      assert Waits(waiters, gone, i, n) <==> WaitsAt(slots, i, n);
    }
  }

  /** A slot that stages nothing, put where there was none or taken away, leaves what is held. */
  lemma OthersHeld(slots: map<InteractionId, Slot<Response>>, offers: seq<Offer>, accepted: set<nat>, placed: map<nat, Place>,
    id: InteractionId, slot: Slot<Response>)
    requires OffersMatch(slots, offers, accepted, placed) && slot.Waiting? && (id in slots ==> slots[id].Waiting?)
    ensures OffersMatch(slots[id := slot], offers, accepted, placed)
    ensures OffersMatch(slots - {id}, offers, accepted, placed)
  {
    forall i, t: nat
      ensures HeldAt(slots[id := slot], i, t) <==> HeldAt(slots, i, t)
      ensures HeldAt(slots - {id}, i, t) <==> HeldAt(slots, i, t)
    {
    }
  }

  /** One more call that was not accepted, or whose response was delivered at once. */
  lemma OfferPassed(slots: map<InteractionId, Slot<Response>>, offers: seq<Offer>, accepted: set<nat>, placed: map<nat, Place>,
    offer: Offer, p: Place)
    requires OffersMatch(slots, offers, accepted, placed) && TicketsIssued(accepted, |offers|)
    ensures OffersMatch(slots, offers + [offer], accepted, placed)
    ensures OffersMatch(slots, offers + [offer], accepted + {|offers|}, placed[|offers| := p])
  {
    forall i, t: nat
      ensures Held(offers + [offer], accepted, placed, i, t) <==> HeldAt(slots, i, t)
      ensures Held(offers + [offer], accepted + {|offers|}, placed[|offers| := p], i, t) <==> HeldAt(slots, i, t)
    {
      assert Held(offers, accepted, placed, i, t) <==> HeldAt(slots, i, t);
    }
  }

  lemma OfferStaged(slots: map<InteractionId, Slot<Response>>, offers: seq<Offer>, accepted: set<nat>, placed: map<nat, Place>,
    id: InteractionId, value: nat)
    requires OffersMatch(slots, offers, accepted, placed) && TicketsIssued(accepted, |offers|) && id !in slots
    requires placed.Keys <= accepted
    ensures OffersMatch(slots[id := Staged(Response(|offers|, value))], offers + [Offer(id, value)], accepted + {|offers|}, placed)
  {
    var slots', offers' := slots[id := Staged(Response(|offers|, value))], offers + [Offer(id, value)];
    forall i, t: nat
      ensures Held(offers', accepted + {|offers|}, placed, i, t) <==> HeldAt(slots', i, t)
    {
      assert Held(offers, accepted, placed, i, t) <==> HeldAt(slots, i, t);
    }
  }

  lemma GotPassed(waiters: seq<Waiter>, offers: seq<Offer>, offer: Offer)
    requires AllGotOffered(waiters, offers)
    ensures AllGotOffered(waiters, offers + [offer])
  {
    forall n | 0 <= n < |waiters|
      ensures GotOffered(waiters[n], offers + [offer])
    {
      assert GotOffered(waiters[n], offers);
    }
  }

  /** The slot of a waiter is taken away. */
  lemma WaiterLeaves(slots: map<InteractionId, Slot<Response>>, waiters: seq<Waiter>, gone: set<nat>, id: InteractionId, response: Response)
    requires WaitersMatch(slots, waiters, gone) && id in slots && slots[id].Waiting?
    ensures var n := slots[id].sender;
            && n < |waiters| && WaitersMatch(slots - {id}, waiters, gone + {n})
            && WaitersMatch(slots - {id}, waiters[n := waiters[n].(receiver := Got(response))], gone)
  {
    var n := slots[id].sender;
    assert WaitsAt(slots, id, n);
    var waiters' := waiters[n := waiters[n].(receiver := Got(response))];
    forall i, m: nat
      ensures Waits(waiters, gone + {n}, i, m) <==> WaitsAt(slots - {id}, i, m)
      ensures Waits(waiters', gone, i, m) <==> WaitsAt(slots - {id}, i, m)
    {
      assert Waits(waiters, gone, i, m) <==> WaitsAt(slots, i, m);
      assert Waits(waiters, gone, id, n);
    }
  }

  lemma StagingKeepsWaiters(slots: map<InteractionId, Slot<Response>>, waiters: seq<Waiter>, gone: set<nat>, id: InteractionId, response: Response)
    requires WaitersMatch(slots, waiters, gone) && id !in slots
    ensures WaitersMatch(slots[id := Staged(response)], waiters, gone)
  {
    forall i, n: nat
      ensures WaitsAt(slots[id := Staged(response)], i, n) <==> WaitsAt(slots, i, n)
    {
    }
  }

  lemma ResolveKeepsMatches(w: World, id: InteractionId, value: nat)
    requires Inv(w) && Matches(w)
    ensures Matches(Apply(w, DoResolve(id, value)))
  {
    var response := Response(w.calls, value);
    GotPassed(w.waiters, w.offers, Offer(id, value));
    match ResolveOutcome(w.registry, id, ReceiverOpen(w, id))
    case Delivered => DeliverKeepsMatches(w, id, value);
    case EarlyStaged =>
      OfferStaged(w.registry.slots, w.offers, w.accepted, w.placed, id, value);
      StagingKeepsWaiters(w.registry.slots, w.waiters, w.gone, id, response);
    case Expired =>
      OfferPassed(w.registry.slots, w.offers, w.accepted, w.placed, Offer(id, value), AtWaiter(0));
      OthersHeld(w.registry.slots, w.offers + [Offer(id, value)], w.accepted, w.placed, id, w.registry.slots[id]);
      WaiterLeaves(w.registry.slots, w.waiters, w.gone, id, response);
    case AlreadyResolved => OfferPassed(w.registry.slots, w.offers, w.accepted, w.placed, Offer(id, value), AtWaiter(0));
    case CapacityExceeded(_) => OfferPassed(w.registry.slots, w.offers, w.accepted, w.placed, Offer(id, value), AtWaiter(0));
  }

  lemma DeliverKeepsMatches(w: World, id: InteractionId, value: nat)
    requires Inv(w) && Matches(w) && ResolveOutcome(w.registry, id, ReceiverOpen(w, id)) == Delivered
    ensures Matches(Apply(w, DoResolve(id, value)))
  {
    var response := Response(w.calls, value);
    var slots := w.registry.slots;
    var n := slots[id].sender;
    WaiterLeaves(slots, w.waiters, w.gone, id, response);
    OthersHeld(slots, w.offers, w.accepted, w.placed, id, slots[id]);
    OfferPassed(slots - {id}, w.offers, w.accepted, w.placed, Offer(id, value), AtWaiter(n));
    GotPassed(w.waiters, w.offers, Offer(id, value));
    assert WaitsAt(slots, id, n);
    assert w.waiters[n].id == id;
  }

  /** Changing a waiter's guard, or closing its receiver, changes nothing that matters here. */
  lemma WaiterStays(slots: map<InteractionId, Slot<Response>>, waiters: seq<Waiter>, gone: set<nat>, offers: seq<Offer>, n: nat, waiter: Waiter)
    requires WaitersMatch(slots, waiters, gone) && AllGotOffered(waiters, offers) && n < |waiters|
    requires waiter.id == waiters[n].id && (waiter.receiver == waiters[n].receiver || (waiters[n].receiver == Open && waiter.receiver == Closed))
    ensures WaitersMatch(slots, waiters[n := waiter], gone) && AllGotOffered(waiters[n := waiter], offers)
  {
    forall i, m: nat
      ensures Waits(waiters[n := waiter], gone, i, m) <==> Waits(waiters, gone, i, m)
    {
    }
    assert GotOffered(waiters[n], offers);
  }

  lemma DropKeepsMatches(w: World, n: nat)
    requires Inv(w) && Matches(w) && Enabled(w, DoDropGuard(n))
    ensures Matches(Apply(w, DoDropGuard(n)))
  {
    var id := w.waiters[n].id;
    var slots := w.registry.slots;
    var next := AfterGuardDrop(w.registry, id, w.waiters[n].generation);
    if next != w.registry {
      WaiterLeaves(slots, w.waiters, w.gone, id, Response(0, 0));
      OthersHeld(slots, w.offers, w.accepted, w.placed, id, slots[id]);
    }
    WaiterStays(next.slots, w.waiters, Apply(w, DoDropGuard(n)).gone, w.offers, n, w.waiters[n].(guarded := false));
  }

  lemma StepKeepsMatches(w: World, a: Action)
    requires Inv(w) && Matches(w) && Enabled(w, a)
    ensures Matches(Apply(w, a))
  {
    match a
    case DoRegister(id) => RegisterKeepsMatches(w, id);
    case DoResolve(id, value) => ResolveKeepsMatches(w, id, value);
    case DoClose(n) => WaiterStays(w.registry.slots, w.waiters, w.gone, w.offers, n,
                                   if w.waiters[n].receiver == Open then w.waiters[n].(receiver := Closed) else w.waiters[n]);
    case DoDropGuard(n) => DropKeepsMatches(w, n);
  }

  lemma {:induction false} RunKeepsMatches(maximum: nat, actions: seq<Action>)
    requires Exec(Start(maximum), actions).At?
    ensures Matches(Exec(Start(maximum), actions).world)
  {
    if actions != [] {
      var most := actions[..|actions| - 1];
      RunKeepsMatches(maximum, most);
      RunKeepsInv(maximum, most);
      hide Matches;
      hide Inv;
      hide Apply;
      StepKeepsMatches(Exec(Start(maximum), most).world, actions[|actions| - 1]);
    }
  }

  lemma ReachableMatches(w: World)
    requires Reachable(w)
    ensures Matches(w) && Inv(w)
  {
    var maximum: nat, actions :| Exec(Start(maximum), actions) == At(w);
    RunKeepsMatches(maximum, actions);
    RunKeepsInv(maximum, actions);
  }

  // --- the results ---

  /** What an identifier is to the registry: resolved lately, with a response held for it, waited for, or unknown. */
  lemma SlotsMeaning(w: World, id: InteractionId)
    requires Reachable(w)
    ensures id in w.registry.resolved <==> RecentlyResolved(w, id)
    ensures id in w.registry.slots <==> SomeoneWaits(w, id) || SomethingHeld(w, id)
    ensures id in w.registry.slots ==> (w.registry.slots[id].Waiting? <==> SomeoneWaits(w, id))
    ensures !(SomeoneWaits(w, id) && SomethingHeld(w, id))
    ensures RecentlyResolved(w, id) ==> !SomeoneWaits(w, id) && !SomethingHeld(w, id)
  {
    ReachableMatches(w);
    hide Reachable;
    if id in w.registry.slots {
      if w.registry.slots[id].Waiting? {
        assert WaitsAt(w.registry.slots, id, w.registry.slots[id].sender);
      } else {
        assert HeldAt(w.registry.slots, id, w.registry.slots[id].value.ticket);
      }
    }
  }

  ghost predicate OpenWaiter(w: World, id: InteractionId) {
    exists n: nat :: Waits(w.waiters, w.gone, id, n) && w.waiters[n].receiver == Open
  }

  /** The answer to a response for `id`, from the history alone but for the number of slots held. */
  ghost function ResolutionOf(w: World, id: InteractionId): (r: Resolution) {
    if RecentlyResolved(w, id) || SomethingHeld(w, id) then AlreadyResolved
    else if SomeoneWaits(w, id) then
      if OpenWaiter(w, id) then Delivered else Expired
    else if |w.registry.slots| < w.registry.maximum then EarlyStaged
    else CapacityExceeded(w.registry.maximum)
  }

  lemma ResolutionMeaning(w: World, id: InteractionId)
    requires Reachable(w)
    ensures ResolveOutcome(w.registry, id, ReceiverOpen(w, id)) == ResolutionOf(w, id)
  {
    SlotsMeaning(w, id);
    OpenMeaning(w, id);
    hide Reachable;
    hide SomeoneWaits;
    hide SomethingHeld;
    hide RecentlyResolved;
    hide OpenWaiter;
    hide ReceiverOpen;
  }

  lemma OpenMeaning(w: World, id: InteractionId)
    requires Reachable(w)
    ensures ReceiverOpen(w, id) <==> OpenWaiter(w, id)
  {
    ReachableMatches(w);
    hide Reachable;
    hide Inv;
    if ReceiverOpen(w, id) {
      assert WaitsAt(w.registry.slots, id, w.registry.slots[id].sender);
    }
    if OpenWaiter(w, id) {
      var n: nat :| Waits(w.waiters, w.gone, id, n) && w.waiters[n].receiver == Open;
      assert WaitsAt(w.registry.slots, id, n);
    }
  }

  /** In every run a response to an identifier that someone waits for with an open receiver reaches exactly that waiter,
      whatever else the registry holds. */
  lemma OpenWaiterGetsResponse(w: World, id: InteractionId, n: nat, value: nat)
    requires Reachable(w) && Waits(w.waiters, w.gone, id, n) && w.waiters[n].receiver == Open
    ensures var w' := Apply(w, DoResolve(id, value));
            && w'.waiters == w.waiters[n := w.waiters[n].(receiver := Got(Response(w.calls, value)))]
            && w'.accepted == w.accepted + {w.calls} && w'.marks == w.marks + [id]
            && w'.registry.slots == w.registry.slots - {id}
  {
    ReachableMatches(w);
    hide Reachable;
    assert WaitsAt(w.registry.slots, id, n);
  }

  /** And otherwise: accepted, and held, exactly if nobody waits, nothing is held for it, it was not resolved lately and
      fewer than `maximum` slots are held. A waiter whose receiver is closed loses its slot. */
  lemma OtherResponses(w: World, id: InteractionId, value: nat)
    requires Reachable(w) && ResolutionOf(w, id) != Delivered
    ensures var w' := Apply(w, DoResolve(id, value));
            && w'.waiters == w.waiters && w'.marks == w.marks && w'.placed == w.placed
            && (w.calls in w'.accepted <==> ResolutionOf(w, id) == EarlyStaged)
            && (Held(w'.offers, w'.accepted, w'.placed, id, w.calls) <==> ResolutionOf(w, id) == EarlyStaged)
            && (SomeoneWaits(w', id) ==> ResolutionOf(w, id) != Expired)
  {
    ResolutionMeaning(w, id);
    ReachableMatches(w);
    hide Reachable;
    StepKeepsMatches(w, DoResolve(id, value));
    var w' := Apply(w, DoResolve(id, value));
    if ResolutionOf(w, id) == EarlyStaged {
      assert HeldAt(w'.registry.slots, id, w.calls);
    }
    assert forall n: nat :: Waits(w'.waiters, w'.gone, id, n) ==> WaitsAt(w'.registry.slots, id, n);
  }

  /** In every run a registration is refused exactly for an identifier resolved lately or waited for; if a response is
      held, that very response answers it; and otherwise it waits. */
  lemma RegistrationMeaning(w: World, id: InteractionId)
    requires Reachable(w)
    ensures RegisterOutcome(w.registry, id) == Duplicate <==> RecentlyResolved(w, id) || SomeoneWaits(w, id)
    ensures forall t: nat :: Held(w.offers, w.accepted, w.placed, id, t) ==>
              && RegisterOutcome(w.registry, id) == Ready(Response(t, w.offers[t].value))
              && Apply(w, DoRegister(id)).placed == w.placed[t := AtRegistration(w.immediate)]
    ensures !RecentlyResolved(w, id) && !SomeoneWaits(w, id) && !SomethingHeld(w, id) ==>
              && Apply(w, DoRegister(id)).waiters == w.waiters + [Waiter(id, Generation(|w.waiters|), Open, true)]
              && Waits(Apply(w, DoRegister(id)).waiters, Apply(w, DoRegister(id)).gone, id, |w.waiters|)
  {
    SlotsMeaning(w, id);
    ReachableMatches(w);
    hide Reachable;
    hide Consistent;
    hide StagedPending;
    hide NothingLost;
    hide SomeoneWaits;
    hide RecentlyResolved;
    forall t: nat | Held(w.offers, w.accepted, w.placed, id, t)
      ensures RegisterOutcome(w.registry, id) == Ready(Response(t, w.offers[t].value))
      ensures Apply(w, DoRegister(id)).placed == w.placed[t := AtRegistration(w.immediate)]
    {
      assert HeldAt(w.registry.slots, id, t);
      assert Offered(w.offers, id, w.registry.slots[id].value);
    }
  }

  /** A waiter only ever gets a response that was offered to its own identifier. */
  lemma ResponsesAreAddressed(w: World, n: nat)
    requires Reachable(w) && n < |w.waiters| && w.waiters[n].receiver.Got?
    ensures var response := w.waiters[n].receiver.response;
            response.ticket < |w.offers| && w.offers[response.ticket] == Offer(w.waiters[n].id, response.value)
  {
    ReachableMatches(w);
    assert GotOffered(w.waiters[n], w.offers);
  }
}
