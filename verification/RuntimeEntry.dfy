/** One retained runtime: turn admission, hand-off, release, late completion and disposal.

    Several tasks share the entry and its lock. Each lock-held section is one operation here, and
    a run is any interleaving of them. Ownership of the active slot goes by invocation
    identifier, as in the program, not by turn. */
module RuntimeEntry {
  import opened Basics
  import opened Events
  import opened RecentWindow

  const RECENT_INVOCATION_CAPACITY: nat := 1024

  datatype Status = Ready | Busy | Degraded | Stopping | Stopped

  datatype FailureKind = Network | Transport | ProviderProcess | Indeterminate | Cancelled | OtherFailure

  datatype TurnOutcome = Succeeded | Failed(kind: FailureKind)

  /** The active slot; `turn` numbers the admission, standing for the slot's signals and token. */
  datatype ActiveTurn = ActiveTurn(id: InvocationId, turn: nat)

  datatype Entry = Entry(
    status: Status,
    session: Option<SessionId>,
    active: Option<ActiveTurn>,
    recent: set<InvocationId>,
    recentOrder: seq<InvocationId>,
    disposed: bool,
    released: set<nat>,     // turns whose `released` signal is complete
    cancelled: set<nat>,    // turns whose cancellation token is cancelled
    capacity: nat)          // of the recent-invocation window

  datatype Admission =
    | RuntimeDisposed
    | InvocationAlreadyExists
    | AskHandoff
    | RuntimeBusy(holder: InvocationId)
    | NeedsSession
    | Admitted(session: Option<SessionId>)

  /** The lock-held section of one round of the admission loop. */
  function Admit(e: Entry, id: InvocationId, kind: Kind, attempted: bool, accepted: bool): (r: Admission) {
    if e.disposed then RuntimeDisposed
    else if id in e.recent then InvocationAlreadyExists
    else if e.active.Some? && !(accepted && e.active.value.turn in e.released) then
      if !attempted && kind == Turn then AskHandoff else RuntimeBusy(e.active.value.id)
    else if kind == ManualCompaction && e.session.None? then NeedsSession
    else Admitted(e.session)
  }

  function AfterAdmission(e: Entry, id: InvocationId, turn: nat): (r: Entry) {
    var order := Last(e.recentOrder + [id], e.capacity);
    e.(status := Busy, active := Some(ActiveTurn(id, turn)), recentOrder := order, recent := Elements(order))
  }

  predicate Owns(e: Entry, id: InvocationId) {
    e.active.Some? && e.active.value.id == id
  }

  function AfterRecord(e: Entry, id: InvocationId, report: Option<SessionId>): (r: Entry) {
    if Owns(e, id) && report.Some? then e.(session := report) else e
  }

  function AfterRelease(e: Entry, turn: nat): (r: Entry) {
    e.(released := e.released + {turn})
  }

  function FinalStatus(disposed: bool, outcome: TurnOutcome): (s: Status) {
    if disposed then Stopped
    else if outcome.Failed? && outcome.kind in {Network, Transport, ProviderProcess, Indeterminate} then Degraded
    else Ready
  }

  function AfterFinish(e: Entry, id: InvocationId, outcome: TurnOutcome): (r: Entry) {
    if Owns(e, id) then e.(active := None, status := FinalStatus(e.disposed, outcome)) else e
  }

  function AfterDispose(e: Entry): (r: Entry) {
    if e.active.Some? then e.(cancelled := e.cancelled + {e.active.value.turn}, status := Stopping)
    else e.(status := Stopped)
  }

  ghost predicate WindowOk(e: Entry) {
    && e.capacity > 0
    && NoDup(e.recentOrder) && e.recent == Elements(e.recentOrder)
  }

  class SharedEntry {
    var status: Status
    var session: Option<SessionId>
    var active: Option<ActiveTurn>
    var recent: set<InvocationId>
    var recentOrder: seq<InvocationId>
    var disposed: bool
    var released: set<nat>
    var cancelled: set<nat>
    const capacity: nat

    ghost function View(): (e: Entry)
      reads this
    {
      Entry(status, session, active, recent, recentOrder, disposed, released, cancelled, capacity)
    }

    constructor (session: Option<SessionId>)
      ensures View() == NewEntry(session, RECENT_INVOCATION_CAPACITY)
      ensures WindowOk(View())
    {
      status, this.session, active := Ready, session, None;
      recent, recentOrder := {}, [];
      disposed, released, cancelled := false, {}, {};
      capacity := RECENT_INVOCATION_CAPACITY;
    }

    /** One round of the admission loop, with the entry lock held throughout. */
    method TryAdmit(id: InvocationId, kind: Kind, attempted: bool, accepted: bool, turn: nat) returns (r: Admission)
      requires WindowOk(View())
      modifies this
      ensures r == Admit(old(View()), id, kind, attempted, accepted)
      ensures View() == if r.Admitted? then AfterAdmission(old(View()), id, turn) else old(View())
      ensures WindowOk(View())
    {
      if disposed {
        return RuntimeDisposed;
      }
      if id in recent {
        return InvocationAlreadyExists;
      }
      var handedOff := accepted && active.Some? && active.value.turn in released;
      if active.Some? && !handedOff {
        if !attempted && kind == Turn {
          return AskHandoff;
        }
        return RuntimeBusy(active.value.id);
      }
      if kind == ManualCompaction && session.None? {
        return NeedsSession;
      }
      status := Busy;
      active := Some(ActiveTurn(id, turn));
      Remember(id);
      return Admitted(session);
    }

    method Remember(id: InvocationId)
      requires WindowOk(View()) && id !in recent
      modifies this`recent, this`recentOrder
      ensures recentOrder == Last(old(recentOrder) + [id], capacity)
      ensures recent == Elements(recentOrder) && NoDup(recentOrder)
    {
      ElementsOfPush(recentOrder, id);
      recent := recent + {id};
      recentOrder := recentOrder + [id];
      ghost var all := recentOrder;
      ghost var k := 0;
      while |recentOrder| > capacity
        invariant 0 <= k <= |all| && recentOrder == all[k..]
        invariant k > 0 ==> |recentOrder| >= capacity
        invariant NoDup(recentOrder) && recent == Elements(recentOrder)
        decreases |recentOrder|
      {
        ElementsOfTail(recentOrder);
        recent := recent - {recentOrder[0]};
        recentOrder := recentOrder[1..];
        k := k + 1;
      }
    }

    method RecordSession(id: InvocationId, report: Option<SessionId>)
      modifies this
      ensures View() == AfterRecord(old(View()), id, report)
    {
      if active.Some? && active.value.id == id {
        if report.Some? {
          session := report;
        }
      }
    }

    method Release(turn: nat)
      modifies this
      ensures View() == AfterRelease(old(View()), turn)
    {
      released := released + {turn};
    }

    method Finish(id: InvocationId, outcome: TurnOutcome)
      modifies this
      ensures View() == AfterFinish(old(View()), id, outcome)
    {
      if active.Some? && active.value.id == id {
        active := None;
        if disposed {
          status := Stopped;
        } else if outcome.Failed? &&
            (outcome.kind == Network || outcome.kind == Transport ||
             outcome.kind == ProviderProcess || outcome.kind == Indeterminate) {
          status := Degraded;
        } else {
          status := Ready;
        }
      }
    }

    /** The flag is raised before the lock is taken. */
    method RaiseDisposed()
      modifies this
      ensures View() == old(View()).(disposed := true)
    {
      disposed := true;
    }

    method DisposeLocked()
      modifies this
      ensures View() == AfterDispose(old(View()))
    {
      if active.Some? {
        cancelled := cancelled + {active.value.turn};
        status := Stopping;
      } else {
        status := Stopped;
      }
    }
  }

  function NewEntry(session: Option<SessionId>, capacity: nat): (e: Entry) {
    Entry(Ready, session, None, {}, [], false, {}, {}, capacity)
  }

  // ---------------------------------------------------------------------------------------
  // Runs.

  /** How far an admitted turn has come. */
  datatype Phase = Executing | Returned | Recorded | Released | Finished

  datatype Admitting = Trying | AwaitingHandoff | Answered(answer: Admission)

  datatype Request = Request(id: InvocationId, kind: Kind, attempted: bool, accepted: bool, rounds: nat, at: Admitting)

  /** A finish that emptied the slot: its outcome, how many turns had been admitted by then, and the disposed flag. */
  datatype Clear = Clear(outcome: TurnOutcome, admitted: nat, disposed: bool)

  /** The admitted turns, one column per attribute, all in admission order. */
  datatype World = World(
    entry: Entry,
    spec: Option<SessionId>,
    ids: seq<InvocationId>,
    given: seq<Option<SessionId>>,      // the session each turn was started with
    reports: seq<Option<SessionId>>,    // the session each turn's executor reported
    phases: seq<Phase>,
    requests: seq<Request>,
    clears: seq<Clear>,                 // the finishes that emptied the slot
    locked: bool)                       // disposal has held the lock

  datatype Action =
    | Submit(id: InvocationId, kind: Kind)
    | Round(request: nat)
    | HandoffAnswer(request: nat, accepted: bool)
    | ExecutorReturns(turn: nat, report: Option<SessionId>)
    | Record(turn: nat)
    | Release(turn: nat)
    | Finish(turn: nat, outcome: TurnOutcome)
    | RaiseDisposed
    | DisposeLocked

  function Start(spec: Option<SessionId>, capacity: nat): (w: World) {
    World(NewEntry(spec, capacity), spec, [], [], [], [], [], [], false)
  }

  predicate InPhase(w: World, turn: nat, phase: Phase) {
    && turn < |w.phases| && w.phases[turn] == phase
    && |w.ids| == |w.phases| == |w.reports|
  }

  predicate Enabled(w: World, a: Action) {
    match a
    case Submit(_, _) => true
    case Round(r) => r < |w.requests| && w.requests[r].at == Trying
    case HandoffAnswer(r, _) => r < |w.requests| && w.requests[r].at == AwaitingHandoff
    case ExecutorReturns(t, _) => InPhase(w, t, Executing)
    case Record(t) => InPhase(w, t, Returned)
    case Release(t) => InPhase(w, t, Recorded)
    case Finish(t, _) => InPhase(w, t, Released)
    case RaiseDisposed => true
    case DisposeLocked => w.entry.disposed
  }

  function AfterRound(w: World, r: nat): (w': World)
    requires Enabled(w, Round(r))
  {
    var q := w.requests[r].(rounds := w.requests[r].rounds + 1);
    var answer := Admit(w.entry, q.id, q.kind, q.attempted, q.accepted);
    match answer
    case AskHandoff => w.(requests := w.requests[r := q.(attempted := true, at := AwaitingHandoff)])
    case Admitted(session) =>
      w.(entry := AfterAdmission(w.entry, q.id, |w.ids|),
         ids := w.ids + [q.id],
         given := w.given + [session],
         reports := w.reports + [None],
         phases := w.phases + [Executing],
         requests := w.requests[r := q.(at := Answered(answer))])
    case _ => w.(requests := w.requests[r := q.(at := Answered(answer))])
  }

  function Apply(w: World, a: Action): (w': World)
    requires Enabled(w, a)
  {
    match a
    case Submit(id, kind) =>
      var at := if w.entry.disposed then Answered(RuntimeDisposed) else Trying;
      w.(requests := w.requests + [Request(id, kind, false, false, 0, at)])
    case Round(r) => AfterRound(w, r)
    case HandoffAnswer(r, accepted) =>
      w.(requests := w.requests[r := w.requests[r].(accepted := accepted, at := Trying)])
    case ExecutorReturns(t, report) =>
      w.(phases := w.phases[t := Returned], reports := w.reports[t := report])
    case Record(t) =>
      w.(entry := AfterRecord(w.entry, w.ids[t], w.reports[t]), phases := w.phases[t := Recorded])
    case Release(t) => w.(entry := AfterRelease(w.entry, t), phases := w.phases[t := Released])
    case Finish(t, outcome) =>
      w.(entry := AfterFinish(w.entry, w.ids[t], outcome),
         phases := w.phases[t := Finished],
         clears := if Owns(w.entry, w.ids[t]) then w.clears + [Clear(outcome, |w.ids|, w.entry.disposed)] else w.clears)
    case RaiseDisposed => w.(entry := w.entry.(disposed := true))
    case DisposeLocked => w.(entry := AfterDispose(w.entry), locked := true)
  }

  /** The phases in which a turn still holds the runtime's process or its session. */
  const HOLDING: set<Phase> := {Executing, Returned, Recorded}

  /** A finish that owns the slot, by identifier, does not find a turn in one of these phases there. */
  predicate Spares(w: World, a: Action, spared: set<Phase>) {
    a.Finish? && a.turn < |w.ids| && Owns(w.entry, w.ids[a.turn]) && w.entry.active.value.turn < |w.phases| ==>
      w.phases[w.entry.active.value.turn] !in spared
  }

  datatype Outcome = Stuck | At(world: World)

  /** The state after a run; only runs count in which every finish spares turns in these phases, so that
      with the empty set every run counts. */
  function Exec(w: World, actions: seq<Action>, spared: set<Phase>): (o: Outcome) {
    if actions == [] then At(w)
    else
      var before := Exec(w, actions[..|actions| - 1], spared);
      var a := actions[|actions| - 1];
      if before.At? && Enabled(before.world, a) && Spares(before.world, a, spared)
      then At(Apply(before.world, a))
      else Stuck
  }

  ghost predicate Reachable(w: World, spared: set<Phase>) {
    exists spec: Option<SessionId>, actions ::
      Exec(Start(spec, RECENT_INVOCATION_CAPACITY), actions, spared) == At(w)
  }

  // --- what every run keeps, clause by clause ---

  /** The recent identifiers are the tail of all admissions. */
  ghost predicate RecentIsTail(order: seq<InvocationId>, recent: set<InvocationId>, ids: seq<InvocationId>, n: nat) {
    IsTail(order, ids, n) && recent == Elements(order) && Spaced(ids, n)
  }

  /** The executor has returned, its session is recorded and its `released` signal is complete. */
  predicate LetGo(phase: Phase) {
    phase.Released? || phase.Finished?
  }

  /** The active slot, when taken, is the newest turn's, under that turn's identifier. */
  predicate ActiveIsNewest(active: Option<ActiveTurn>, ids: seq<InvocationId>) {
    active.Some? ==> ids != [] && active.value == ActiveTurn(ids[|ids| - 1], |ids| - 1)
  }

  ghost predicate ReleasedMatches(released: set<nat>, phases: seq<Phase>) {
    forall t :: t in released <==> 0 <= t < |phases| && LetGo(phases[t])
  }

  ghost predicate StatusFollows(status: Status, active: Option<ActiveTurn>, disposed: bool, cancelled: set<nat>, locked: bool) {
    && (locked ==> disposed)
    && (!disposed ==> (status == Busy <==> active.Some?) && (active.None? ==> status in {Ready, Degraded}))
    && (disposed && !locked ==> if active.Some? then status == Busy else status in {Ready, Degraded, Stopped})
    && (locked ==> if active.Some? then status == Stopping && active.value.turn in cancelled else status == Stopped)
  }

  predicate RequestOk(q: Request) {
    match q.at
    case Trying => q.rounds == if q.attempted then 1 else 0
    case AwaitingHandoff => q.attempted && q.rounds == 1
    case Answered(_) => q.rounds <= 2
  }

  ghost predicate RoundsBounded(requests: seq<Request>) {
    forall r :: 0 <= r < |requests| ==> RequestOk(requests[r])
  }

  ghost predicate Recency(w: World) {
    && w.entry.capacity > 0
    && RecentIsTail(w.entry.recentOrder, w.entry.recent, w.ids, w.entry.capacity)
  }

  ghost predicate Inv(w: World) {
    && |w.ids| == |w.given| == |w.reports| == |w.phases|
    && ActiveIsNewest(w.entry.active, w.ids)
    && ReleasedMatches(w.entry.released, w.phases)
    && StatusFollows(w.entry.status, w.entry.active, w.entry.disposed, w.entry.cancelled, w.locked)
    && RoundsBounded(w.requests)
  }

  lemma RecentAfterAdmission(order: seq<InvocationId>, recent: set<InvocationId>, ids: seq<InvocationId>, n: nat, id: InvocationId)
    requires RecentIsTail(order, recent, ids, n) && id !in recent
    ensures RecentIsTail(Last(order + [id], n), Elements(Last(order + [id], n)), ids + [id], n)
  {
    TailOfPush(order, ids, id, n);
    TailIsLast(order, ids, n);
    SpacedPush(ids, id, n);
  }

  lemma RequestsAfter(requests: seq<Request>, r: nat, q: Request)
    requires RoundsBounded(requests) && r < |requests| && RequestOk(q)
    ensures RoundsBounded(requests[r := q])
  {
  }

  lemma RoundKeepsInv(w: World, r: nat)
    requires Inv(w) && Enabled(w, Round(r))
    ensures Inv(Apply(w, Round(r)))
  {
    assert RequestOk(w.requests[r]);
    RequestsAfter(w.requests, r, Apply(w, Round(r)).requests[r]);
  }

  lemma StepKeepsInv(w: World, a: Action)
    requires Inv(w) && Enabled(w, a)
    ensures Inv(Apply(w, a))
  {
    match a
    case Round(r) => RoundKeepsInv(w, r);
    case HandoffAnswer(r, accepted) =>
      assert RequestOk(w.requests[r]);
      RequestsAfter(w.requests, r, w.requests[r].(accepted := accepted, at := Trying));
    case _ =>
  }

  lemma StepKeepsRecency(w: World, a: Action)
    requires Recency(w) && Enabled(w, a)
    ensures Recency(Apply(w, a)) && Apply(w, a).entry.capacity == w.entry.capacity
  {
    if a.Round? {
      var q := w.requests[a.request];
      if Admit(w.entry, q.id, q.kind, q.attempted, q.accepted).Admitted? {
        RecentAfterAdmission(w.entry.recentOrder, w.entry.recent, w.ids, w.entry.capacity, q.id);
      }
    }
  }

  lemma {:induction false} RunKeepsRecency(w: World, actions: seq<Action>, spared: set<Phase>)
    requires Recency(w) && Exec(w, actions, spared).At?
    ensures Recency(Exec(w, actions, spared).world)
    ensures Exec(w, actions, spared).world.entry.capacity == w.entry.capacity
  {
    if actions != [] {
      RunKeepsRecency(w, actions[..|actions| - 1], spared);
      StepKeepsRecency(Exec(w, actions[..|actions| - 1], spared).world, actions[|actions| - 1]);
    }
  }

  lemma {:induction false} RunKeepsInv(w: World, actions: seq<Action>, spared: set<Phase>)
    requires Inv(w) && Exec(w, actions, spared).At?
    ensures Inv(Exec(w, actions, spared).world)
  {
    if actions != [] {
      RunKeepsInv(w, actions[..|actions| - 1], spared);
      StepKeepsInv(Exec(w, actions[..|actions| - 1], spared).world, actions[|actions| - 1]);
    }
  }

  lemma ReachableRecency(w: World, spared: set<Phase>)
    requires Reachable(w, spared)
    ensures Recency(w) && w.entry.capacity == RECENT_INVOCATION_CAPACITY
  {
    var spec: Option<SessionId>, actions :|
      Exec(Start(spec, RECENT_INVOCATION_CAPACITY), actions, spared) == At(w);
    RunKeepsRecency(Start(spec, RECENT_INVOCATION_CAPACITY), actions, spared);
  }

  lemma ReachableInv(w: World, spared: set<Phase>)
    requires Reachable(w, spared)
    ensures Inv(w)
  {
    var spec: Option<SessionId>, actions :|
      Exec(Start(spec, RECENT_INVOCATION_CAPACITY), actions, spared) == At(w);
    RunKeepsInv(Start(spec, RECENT_INVOCATION_CAPACITY), actions, spared);
  }

  // --- the results for every run ---

  /** In every run two admissions of one identifier have at least 1,024 other admissions between them. */
  lemma AdmissionsAreSpaced(w: World, spared: set<Phase>)
    requires Reachable(w, spared)
    ensures Spaced(w.ids, RECENT_INVOCATION_CAPACITY)
  {
    hide Reachable;
    hide Exec;
    ReachableRecency(w, spared);
  }

  /** Within the window, an identifier names one turn only. */
  lemma SameIdSameTurn(order: seq<InvocationId>, recent: set<InvocationId>, ids: seq<InvocationId>, n: nat, t: nat)
    requires RecentIsTail(order, recent, ids, n)
    requires t < |ids| && |ids| - 1 - t <= n && ids[t] == ids[|ids| - 1]
    ensures t == |ids| - 1
  {
  }

  /** In every run, a turn that finishes after losing the slot changes nothing exactly when its identifier is
      not the newest turn's; so only when more than 1,024 turns were admitted after it can it do harm. */
  lemma LateFinishIsHarmless(w: World, t: nat, outcome: TurnOutcome, spared: set<Phase>)
    requires Reachable(w, spared) && InPhase(w, t, Released)
    requires w.entry.active.Some? && w.entry.active.value.turn != t
    ensures Apply(w, Finish(t, outcome)).entry == w.entry <==> w.ids[t] != w.ids[|w.ids| - 1]
    ensures |w.ids| - 1 - t <= RECENT_INVOCATION_CAPACITY ==> Apply(w, Finish(t, outcome)).entry == w.entry
  {
    hide Reachable;
    hide Exec;
    ReachableInv(w, spared);
    ReachableRecency(w, spared);
    if |w.ids| - 1 - t <= RECENT_INVOCATION_CAPACITY && w.ids[t] == w.ids[|w.ids| - 1] {
      SameIdSameTurn(w.entry.recentOrder, w.entry.recent, w.ids, w.entry.capacity, t);
    }
  }

  /** In every run, once a session is known it stays known. */
  lemma {:induction false} SessionNeverForgotten(w: World, actions: seq<Action>, spared: set<Phase>)
    requires w.entry.session.Some? && Exec(w, actions, spared).At?
    ensures Exec(w, actions, spared).world.entry.session.Some?
  {
    if actions != [] {
      SessionNeverForgotten(w, actions[..|actions| - 1], spared);
    }
  }

  /** In every run the admission loop takes at most two rounds, and the second always gives an answer. */
  lemma AtMostTwoRounds(w: World, r: nat, spared: set<Phase>)
    requires Reachable(w, spared) && r < |w.requests|
    ensures w.requests[r].rounds <= 2
    ensures w.requests[r].rounds == 1 && w.requests[r].at == Trying ==>
              Apply(w, Round(r)).requests[r].at.Answered?
  {
    hide Reachable;
    hide Exec;
    ReachableInv(w, spared);
    assert RequestOk(w.requests[r]);
  }

  /** In every run, once the disposed flag is up no turn is ever admitted. */
  lemma {:induction false} DisposedAdmitsNothing(w: World, actions: seq<Action>, spared: set<Phase>)
    requires w.entry.disposed && Exec(w, actions, spared).At?
    ensures Exec(w, actions, spared).world.ids == w.ids
    ensures Exec(w, actions, spared).world.entry.disposed
  {
    if actions != [] {
      DisposedAdmitsNothing(w, actions[..|actions| - 1], spared);
    }
  }

  /** In every run: Busy exactly while a turn is active; after disposal held the lock, Stopping (with the turn
      cancelled) exactly while a turn is active and Stopped after. */
  lemma StatusMeaning(w: World, spared: set<Phase>)
    requires Reachable(w, spared)
    ensures !w.entry.disposed ==> (w.entry.status == Busy <==> w.entry.active.Some?)
    ensures w.locked ==> (w.entry.status == Stopping <==> w.entry.active.Some?)
    ensures w.locked ==> (w.entry.status == Stopped <==> w.entry.active.None?)
    ensures w.locked && w.entry.active.Some? ==> w.entry.active.value.turn in w.entry.cancelled
  {
    hide Reachable;
    hide Exec;
    ReachableInv(w, spared);
  }

  // ---------------------------------------------------------------------------------------
  // Who holds the slot.

  /** Every turn in one of these phases is the active turn. */
  ghost predicate AllHold(active: Option<ActiveTurn>, ids: seq<InvocationId>, phases: seq<Phase>, held: set<Phase>) {
    forall t :: 0 <= t < |phases| && t < |ids| && phases[t] in held ==> active == Some(ActiveTurn(ids[t], t))
  }

  /** Phases before the release, closed under earlier ones. */
  predicate Early(held: set<Phase>) {
    && held <= HOLDING
    && (Recorded in held ==> Returned in held)
    && (Returned in held ==> Executing in held)
  }

  /** The slot is only given away once no turn in these phases holds it. */
  lemma SlotIsFree(e: Entry, ids: seq<InvocationId>, phases: seq<Phase>, held: set<Phase>, id: InvocationId, kind: Kind, attempted: bool, accepted: bool)
    requires Early(held) && AllHold(e.active, ids, phases, held) && ReleasedMatches(e.released, phases) && |ids| == |phases|
    requires Admit(e, id, kind, attempted, accepted).Admitted?
    ensures forall t :: 0 <= t < |phases| ==> phases[t] !in held
  {
  }

  lemma HoldAfterAdmission(ids: seq<InvocationId>, phases: seq<Phase>, held: set<Phase>, id: InvocationId)
    requires |ids| == |phases| && forall t :: 0 <= t < |phases| ==> phases[t] !in held
    ensures AllHold(Some(ActiveTurn(id, |ids|)), ids + [id], phases + [Executing], held)
  {
  }

  lemma RoundKeepsHold(w: World, r: nat, held: set<Phase>)
    requires Inv(w) && Early(held) && AllHold(w.entry.active, w.ids, w.phases, held) && Enabled(w, Round(r))
    ensures var w' := Apply(w, Round(r)); AllHold(w'.entry.active, w'.ids, w'.phases, held)
  {
    var q := w.requests[r];
    if Admit(w.entry, q.id, q.kind, q.attempted, q.accepted).Admitted? {
      SlotIsFree(w.entry, w.ids, w.phases, held, q.id, q.kind, q.attempted, q.accepted);
      HoldAfterAdmission(w.ids, w.phases, held, q.id);
    }
  }

  /** A finish keeps the slot with its holder exactly when it spares it. */
  lemma FinishHoldsIff(w: World, t: nat, outcome: TurnOutcome, held: set<Phase>)
    requires Inv(w) && Early(held) && AllHold(w.entry.active, w.ids, w.phases, held) && InPhase(w, t, Released)
    ensures var w' := Apply(w, Finish(t, outcome));
            AllHold(w'.entry.active, w'.ids, w'.phases, held) <==> Spares(w, Finish(t, outcome), held)
  {
    var w' := Apply(w, Finish(t, outcome));
    if !Spares(w, Finish(t, outcome), held) {
      var h := w.entry.active.value.turn;
      assert w'.phases[h] in held && w'.entry.active.None?;
    }
  }

  /** One step keeps every holder in the slot exactly when it is not a finish that finds one there. */
  lemma StepHoldsIff(w: World, a: Action, held: set<Phase>)
    requires Inv(w) && Early(held) && AllHold(w.entry.active, w.ids, w.phases, held) && Enabled(w, a)
    ensures var w' := Apply(w, a); AllHold(w'.entry.active, w'.ids, w'.phases, held) <==> Spares(w, a, held)
  {
    match a
    case Round(r) => RoundKeepsHold(w, r, held);
    case Finish(t, outcome) => FinishHoldsIff(w, t, outcome, held);
    case _ =>
  }

  ghost predicate HoldsAfter(start: World, actions: seq<Action>, held: set<Phase>) {
    var o := Exec(start, actions, {});
    o.At? && AllHold(o.world.entry.active, o.world.ids, o.world.phases, held)
  }

  ghost predicate AlwaysHold(start: World, actions: seq<Action>, held: set<Phase>) {
    forall k :: 0 <= k <= |actions| ==> HoldsAfter(start, actions[..k], held)
  }

  lemma {:induction false} SparingIsARun(start: World, actions: seq<Action>, spared: set<Phase>)
    requires Exec(start, actions, spared).At?
    ensures Exec(start, actions, {}) == Exec(start, actions, spared)
  {
    if actions != [] {
      SparingIsARun(start, actions[..|actions| - 1], spared);
    }
  }

  lemma AlwaysHoldPrefix(start: World, actions: seq<Action>, held: set<Phase>)
    requires actions != []
    ensures AlwaysHold(start, actions, held) <==>
              AlwaysHold(start, actions[..|actions| - 1], held) && HoldsAfter(start, actions, held)
  {
    var most := actions[..|actions| - 1];
    assert forall k :: 0 <= k <= |most| ==> actions[..k] == most[..k];
    assert actions[..|actions|] == actions;
  }

  /** The exact condition: in a run, the turns in these phases are the active turn at every moment if and only if
      no finish ever found one of them under its own identifier. */
  lemma {:induction false} HoldsIffSpared(spec: Option<SessionId>, actions: seq<Action>, held: set<Phase>)
    requires Early(held)
    requires Exec(Start(spec, RECENT_INVOCATION_CAPACITY), actions, {}).At?
    ensures AlwaysHold(Start(spec, RECENT_INVOCATION_CAPACITY), actions, held) <==>
              Exec(Start(spec, RECENT_INVOCATION_CAPACITY), actions, held).At?
    decreases |actions|
  {
    var start := Start(spec, RECENT_INVOCATION_CAPACITY);
    if actions == [] {
      assert forall k :: 0 <= k <= |actions| ==> actions[..k] == [];
    } else {
      var most := actions[..|actions| - 1];
      HoldsIffSpared(spec, most, held);
      AlwaysHoldPrefix(start, actions, held);
      if AlwaysHold(start, most, held) {
        SparingIsARun(start, most, held);
        assert most[..|most|] == most;
        assert HoldsAfter(start, most, held);
        var w := Exec(start, most, {}).world;
        RunKeepsInv(start, most, {});
        StepHoldsIff(w, actions[|actions| - 1], held);
      }
    }
  }

  /** So in every run that spares executing turns, any turn whose executor has not returned is the active turn, and
      at most one executor runs. */
  lemma OneExecutorAtATime(w: World, spared: set<Phase>)
    requires Reachable(w, spared) && Early(spared) && Executing in spared
    ensures |w.ids| == |w.phases|
    ensures forall t :: 0 <= t < |w.phases| && w.phases[t].Executing? ==> w.entry.active == Some(ActiveTurn(w.ids[t], t))
    ensures forall t, u :: 0 <= t < |w.phases| && 0 <= u < |w.phases| && w.phases[t].Executing? && w.phases[u].Executing? ==> t == u
  {
    ReachableInv(w, spared);
    ReachableHolds(w, spared);
  }

  lemma ReachableHolds(w: World, spared: set<Phase>)
    requires Reachable(w, spared) && Early(spared)
    ensures AllHold(w.entry.active, w.ids, w.phases, spared)
  {
    var spec: Option<SessionId>, actions :|
      Exec(Start(spec, RECENT_INVOCATION_CAPACITY), actions, spared) == At(w);
    var start := Start(spec, RECENT_INVOCATION_CAPACITY);
    SparingIsARun(start, actions, spared);
    HoldsIffSpared(spec, actions, spared);
    assert actions[..|actions|] == actions;
    assert HoldsAfter(start, actions[..|actions|], spared);
  }

  // --- finishing promptly is enough ---

  /** A turn finishes promptly when at most `capacity` turns were admitted after it. */
  predicate Prompt(w: World, a: Action) {
    a.Finish? ==> |w.ids| - 1 - a.turn <= w.entry.capacity
  }

  /** A prompt finish finds only itself in the slot. */
  lemma PromptSpares(w: World, a: Action)
    requires Inv(w) && Recency(w) && Enabled(w, a) && Prompt(w, a)
    ensures Spares(w, a, HOLDING)
  {
    if a.Finish? && Owns(w.entry, w.ids[a.turn]) {
      SameIdSameTurn(w.entry.recentOrder, w.entry.recent, w.ids, w.entry.capacity, a.turn);
    }
  }

  ghost predicate PromptStep(start: World, actions: seq<Action>, k: nat) {
    k < |actions| && Exec(start, actions[..k], {}).At? ==> Prompt(Exec(start, actions[..k], {}).world, actions[k])
  }

  /** Runs whose turns all finish promptly spare every holder. */
  lemma {:induction false} PromptRunsSpare(spec: Option<SessionId>, actions: seq<Action>)
    requires Exec(Start(spec, RECENT_INVOCATION_CAPACITY), actions, {}).At?
    requires forall k: nat :: PromptStep(Start(spec, RECENT_INVOCATION_CAPACITY), actions, k)
    ensures Exec(Start(spec, RECENT_INVOCATION_CAPACITY), actions, HOLDING) ==
              Exec(Start(spec, RECENT_INVOCATION_CAPACITY), actions, {})
    decreases |actions|
  {
    var start := Start(spec, RECENT_INVOCATION_CAPACITY);
    if actions != [] {
      var most := actions[..|actions| - 1];
      forall k: nat
        ensures PromptStep(start, most, k)
      {
        assert PromptStep(start, actions, k);
        assert k <= |most| ==> most[..k] == actions[..k];
      }
      PromptRunsSpare(spec, most);
      RunKeepsInv(start, most, {});
      RunKeepsRecency(start, most, {});
      assert PromptStep(start, actions, |most|);
      PromptSpares(Exec(start, most, {}).world, actions[|most|]);
    }
  }

  // ---------------------------------------------------------------------------------------
  // Sessions.

  /** The last session reported, in admission order, or else the spec's own. */
  function LastReported(spec: Option<SessionId>, reports: seq<Option<SessionId>>): (s: Option<SessionId>) {
    if reports == [] then spec
    else if reports[|reports| - 1].Some? then reports[|reports| - 1]
    else LastReported(spec, reports[..|reports| - 1])
  }

  /** `LastReported` is the report with the highest index, or the spec's session if there is none. */
  lemma {:induction false} LastReportedMeaning(spec: Option<SessionId>, reports: seq<Option<SessionId>>, k: nat)
    requires k <= |reports|
    requires forall i :: k <= i < |reports| ==> reports[i].None?
    requires k > 0 ==> reports[k - 1].Some?
    ensures LastReported(spec, reports) == if k == 0 then spec else reports[k - 1]
  {
    if k < |reports| {
      LastReportedMeaning(spec, reports[..|reports| - 1], k);
    }
  }

  const UNRECORDED: set<Phase> := {Executing, Returned}

  /** The newest turn's report does not count until it is recorded. */
  function RecordedCount(phases: seq<Phase>): (n: nat)
    ensures n <= |phases|
  {
    if phases != [] && phases[|phases| - 1] in UNRECORDED then |phases| - 1 else |phases|
  }

  predicate SessionOk(session: Option<SessionId>, spec: Option<SessionId>, reports: seq<Option<SessionId>>, count: nat) {
    count <= |reports| && session == LastReported(spec, reports[..count])
  }

  /** Turn `t` was given the last session reported before it. */
  predicate GivenOk(spec: Option<SessionId>, given: seq<Option<SessionId>>, reports: seq<Option<SessionId>>, t: nat) {
    t < |given| && t <= |reports| && given[t] == LastReported(spec, reports[..t])
  }

  ghost predicate AllGivenOk(spec: Option<SessionId>, given: seq<Option<SessionId>>, reports: seq<Option<SessionId>>) {
    forall t :: 0 <= t < |given| ==> GivenOk(spec, given, reports, t)
  }

  ghost predicate SessionsOk(w: World) {
    && |w.given| == |w.reports|
    && SessionOk(w.entry.session, w.spec, w.reports, RecordedCount(w.phases))
    && AllGivenOk(w.spec, w.given, w.reports)
  }

  lemma SessionsAfterAdmission(session: Option<SessionId>, spec: Option<SessionId>, given: seq<Option<SessionId>>, reports: seq<Option<SessionId>>)
    requires SessionOk(session, spec, reports, |reports|) && AllGivenOk(spec, given, reports) && |given| == |reports|
    ensures SessionOk(session, spec, reports + [None], |reports|)
    ensures AllGivenOk(spec, given + [session], reports + [None])
  {
    assert reports[..|reports|] == reports == (reports + [None])[..|reports|];
    forall t | 0 <= t < |given + [session]|
      ensures GivenOk(spec, given + [session], reports + [None], t)
    {
      assert (reports + [None])[..t] == reports[..t];
      if t < |given| {
        assert GivenOk(spec, given, reports, t);
      }
    }
  }

  lemma SessionsAfterReturn(session: Option<SessionId>, spec: Option<SessionId>, given: seq<Option<SessionId>>, reports: seq<Option<SessionId>>, report: Option<SessionId>)
    requires reports != [] && |given| == |reports|
    requires SessionOk(session, spec, reports, |reports| - 1) && AllGivenOk(spec, given, reports)
    ensures SessionOk(session, spec, reports[|reports| - 1 := report], |reports| - 1)
    ensures AllGivenOk(spec, given, reports[|reports| - 1 := report])
  {
    var reports' := reports[|reports| - 1 := report];
    assert reports'[..|reports| - 1] == reports[..|reports| - 1];
    forall t | 0 <= t < |given|
      ensures GivenOk(spec, given, reports', t)
    {
      assert GivenOk(spec, given, reports, t);
      assert reports'[..t] == reports[..t];
    }
  }

  lemma SessionAfterRecord(session: Option<SessionId>, spec: Option<SessionId>, reports: seq<Option<SessionId>>)
    requires reports != [] && SessionOk(session, spec, reports, |reports| - 1)
    ensures var report := reports[|reports| - 1];
            SessionOk(if report.Some? then report else session, spec, reports, |reports|)
  {
    assert reports[..|reports|] == reports;
  }

  /** A turn whose report is not recorded yet is the newest and owns the slot. */
  lemma UnrecordedOwns(w: World, t: nat, held: set<Phase>)
    requires Inv(w) && AllHold(w.entry.active, w.ids, w.phases, held) && t < |w.phases| && w.phases[t] in held
    ensures t == |w.phases| - 1 && Owns(w.entry, w.ids[t])
  {
  }

  lemma AdmissionKeepsSession(e: Entry, q: Request, turn: nat)
    requires Admit(e, q.id, q.kind, q.attempted, q.accepted).Admitted?
    ensures Admit(e, q.id, q.kind, q.attempted, q.accepted) == Admitted(e.session)
    ensures AfterAdmission(e, q.id, turn).session == e.session
  {
  }

  /** What an admission appends, and what it leaves. */
  lemma AdmissionAppends(w: World, r: nat)
    requires Enabled(w, Round(r))
    requires Admit(w.entry, w.requests[r].id, w.requests[r].kind, w.requests[r].attempted, w.requests[r].accepted).Admitted?
    ensures var w' := Apply(w, Round(r));
            && w'.given == w.given + [w.entry.session] && w'.reports == w.reports + [None]
            && w'.phases == w.phases + [Executing] && w'.spec == w.spec && w'.entry.session == w.entry.session
  {
    hide Admit;
    hide AfterAdmission;
    AdmissionKeepsSession(w.entry, w.requests[r], |w.ids|);
  }

  lemma AdmissionKeepsSessions(w: World, r: nat)
    requires Inv(w) && SessionsOk(w) && Enabled(w, Round(r)) && RecordedCount(w.phases) == |w.phases|
    requires Admit(w.entry, w.requests[r].id, w.requests[r].kind, w.requests[r].attempted, w.requests[r].accepted).Admitted?
    ensures SessionsOk(Apply(w, Round(r)))
  {
    AdmissionAppends(w, r);
    assert |w.reports| == |w.phases|;
    hide Inv;
    hide Apply;
    hide Admit;
    hide AllGivenOk;
    hide LastReported;
    SessionsAfterAdmission(w.entry.session, w.spec, w.given, w.reports);
  }

  lemma RoundKeepsSessions(w: World, r: nat, held: set<Phase>)
    requires Inv(w) && SessionsOk(w) && Early(held) && UNRECORDED <= held
    requires AllHold(w.entry.active, w.ids, w.phases, held) && Enabled(w, Round(r))
    ensures SessionsOk(Apply(w, Round(r)))
  {
    var q := w.requests[r];
    if Admit(w.entry, q.id, q.kind, q.attempted, q.accepted).Admitted? {
      SlotIsFree(w.entry, w.ids, w.phases, held, q.id, q.kind, q.attempted, q.accepted);
      assert RecordedCount(w.phases) == |w.phases|;
      hide SessionsOk;
      AdmissionKeepsSessions(w, r);
    }
  }

  lemma ReturnKeepsSessions(w: World, t: nat, report: Option<SessionId>, held: set<Phase>)
    requires Inv(w) && SessionsOk(w) && Executing in held
    requires AllHold(w.entry.active, w.ids, w.phases, held) && InPhase(w, t, Executing)
    ensures SessionsOk(Apply(w, ExecutorReturns(t, report)))
  {
    UnrecordedOwns(w, t, held);
    SessionsAfterReturn(w.entry.session, w.spec, w.given, w.reports, report);
  }

  lemma RecordKeepsSessions(w: World, t: nat, held: set<Phase>)
    requires Inv(w) && SessionsOk(w) && Returned in held
    requires AllHold(w.entry.active, w.ids, w.phases, held) && InPhase(w, t, Returned)
    ensures SessionsOk(Apply(w, Record(t)))
  {
    UnrecordedOwns(w, t, held);
    SessionAfterRecord(w.entry.session, w.spec, w.reports);
  }

  /** What a turn does after its report was recorded does not matter for sessions. */
  lemma CountStays(phases: seq<Phase>, t: nat, phase: Phase)
    requires t < |phases| && phases[t] !in UNRECORDED && phase !in UNRECORDED
    ensures RecordedCount(phases[t := phase]) == RecordedCount(phases)
  {
  }

  lemma StepKeepsSessions(w: World, a: Action, held: set<Phase>)
    requires Inv(w) && SessionsOk(w) && Early(held) && UNRECORDED <= held
    requires AllHold(w.entry.active, w.ids, w.phases, held) && Enabled(w, a)
    ensures SessionsOk(Apply(w, a))
  {
    hide Inv;
    hide AllHold;
    hide AllGivenOk;
    hide RecordedCount;
    hide LastReported;
    match a {
      case Round(r) => RoundKeepsSessions(w, r, held);
      case ExecutorReturns(t, report) => ReturnKeepsSessions(w, t, report, held);
      case Record(t) => RecordKeepsSessions(w, t, held);
      case Release(t) => CountStays(w.phases, t, Released);
      case Finish(t, _) => CountStays(w.phases, t, Finished);
      case _ =>
    }
  }

  lemma {:induction false} RunKeepsSessions(spec: Option<SessionId>, actions: seq<Action>, spared: set<Phase>)
    requires Early(spared) && UNRECORDED <= spared
    requires Exec(Start(spec, RECENT_INVOCATION_CAPACITY), actions, spared).At?
    ensures SessionsOk(Exec(Start(spec, RECENT_INVOCATION_CAPACITY), actions, spared).world)
    decreases |actions|
  {
    var start := Start(spec, RECENT_INVOCATION_CAPACITY);
    if actions != [] {
      var most := actions[..|actions| - 1];
      RunKeepsSessions(spec, most, spared);
      RunKeepsInv(start, most, spared);
      var w := Exec(start, most, spared).world;
      assert Reachable(w, spared);
      ReachableHolds(w, spared);
      StepKeepsSessions(w, actions[|actions| - 1], spared);
    }
  }

  /** In every run that spares unrecorded turns, each turn was given the last session reported by the turns admitted
      before it, and the entry's own session follows the recorded reports; if recorded turns are spared too, all
      turns but the newest have let go of the process. */
  lemma SessionsFollowReports(w: World, spared: set<Phase>)
    requires Reachable(w, spared) && Early(spared) && UNRECORDED <= spared
    ensures |w.given| == |w.reports| == |w.phases|
    ensures forall t :: 0 <= t < |w.given| ==> w.given[t] == LastReported(w.spec, w.reports[..t])
    ensures Recorded in spared ==> forall t :: 0 <= t < |w.phases| - 1 ==> LetGo(w.phases[t])
    ensures w.entry.session == LastReported(w.spec, w.reports[..RecordedCount(w.phases)])
  {
    ReachableInv(w, spared);
    ReachableHolds(w, spared);
    var spec: Option<SessionId>, actions :|
      Exec(Start(spec, RECENT_INVOCATION_CAPACITY), actions, spared) == At(w);
    RunKeepsSessions(spec, actions, spared);
    forall t | 0 <= t < |w.given|
      ensures w.given[t] == LastReported(w.spec, w.reports[..t])
    {
      assert GivenOk(w.spec, w.given, w.reports, t);
    }
  }

  /** The exact condition for one report: while a turn executes, another finishes, the executor reports a new
      session and it is recorded. The entry keeps that session if and only if the finish spared the turn. */
  lemma ReportKeptIff(w: World, h: nat, t: nat, outcome: TurnOutcome, report: SessionId)
    requires Inv(w) && AllHold(w.entry.active, w.ids, w.phases, {Executing})
    requires InPhase(w, h, Executing) && InPhase(w, t, Released) && w.entry.session != Some(report)
    ensures var w1 := Apply(w, Finish(t, outcome));
            InPhase(w1, h, Executing)
            && var w2 := Apply(w1, ExecutorReturns(h, Some(report)));
               InPhase(w2, h, Returned)
               && (Apply(w2, Record(h)).entry.session == Some(report) <==> Spares(w, Finish(t, outcome), {Executing}))
  {
    assert w.entry.active == Some(ActiveTurn(w.ids[h], h));
  }

  // --- what happens when a turn finishes too late ---

  lemma ReachableStep(w: World, a: Action)
    requires Reachable(w, {}) && Enabled(w, a)
    ensures Reachable(Apply(w, a), {})
  {
    var spec: Option<SessionId>, actions :|
      Exec(Start(spec, RECENT_INVOCATION_CAPACITY), actions, {}) == At(w);
    assert (actions + [a])[..|actions|] == actions;
    assert Exec(Start(spec, RECENT_INVOCATION_CAPACITY), actions + [a], {}) == At(Apply(w, a));
  }

  /** `n` turns, all released but none finished; the newest holds the slot. */
  ghost predicate AllReleased(w: World, n: nat) {
    && Reachable(w, {}) && !w.entry.disposed
    && |w.ids| == |w.phases| == |w.reports| == n
    && (forall t :: 0 <= t < n ==> w.phases[t] == Released)
    && (n == 0 ==> w.entry.active.None?)
    && (n > 0 ==> w.entry.active == Some(ActiveTurn(w.ids[n - 1], n - 1)) && n - 1 in w.entry.released)
  }

  lemma ObtainHandoff(w: World, r: nat, id: InvocationId) returns (w': World)
    requires Reachable(w, {}) && r < |w.requests|
    requires w.requests[r] == Request(id, Turn, false, false, 0, Trying)
    requires Admit(w.entry, id, Turn, false, false) == AskHandoff
    ensures Reachable(w', {})
    ensures w' == w.(requests := w.requests[r := Request(id, Turn, true, true, 1, Trying)])
  {
    hide Reachable;
    hide Exec;
    ReachableStep(w, Round(r));
    var asked := Apply(w, Round(r));
    ReachableStep(asked, HandoffAnswer(r, true));
    w' := Apply(asked, HandoffAnswer(r, true));
  }

  lemma AdmitRound(w: World, r: nat) returns (w': World)
    requires Reachable(w, {}) && r < |w.requests| && w.requests[r].at == Trying
    requires Admit(w.entry, w.requests[r].id, w.requests[r].kind, w.requests[r].attempted, w.requests[r].accepted).Admitted?
    ensures Reachable(w', {}) && w'.entry.disposed == w.entry.disposed
    ensures w'.ids == w.ids + [w.requests[r].id] && w'.phases == w.phases + [Executing] && w'.reports == w.reports + [None]
    ensures w'.entry.active == Some(ActiveTurn(w.requests[r].id, |w.ids|))
  {
    hide Reachable;
    hide Exec;
    ReachableStep(w, Round(r));
    w' := Apply(w, Round(r));
  }

  /** A new turn is admitted, asking the holder to hand off when there is one. */
  lemma AdmitNext(w: World, n: nat, id: InvocationId) returns (w': World)
    requires AllReleased(w, n) && id !in w.entry.recent
    ensures Reachable(w', {}) && !w'.entry.disposed
    ensures w'.ids == w.ids + [id] && w'.phases == w.phases + [Executing] && w'.reports == w.reports + [None]
    ensures w'.entry.active == Some(ActiveTurn(id, n))
  {
    hide Reachable;
    hide Exec;
    var r := |w.requests|;
    ReachableStep(w, Submit(id, Turn));
    w' := Apply(w, Submit(id, Turn));
    if n > 0 {
      w' := ObtainHandoff(w', r, id);
    }
    w' := AdmitRound(w', r);
  }

  lemma ReleaseNext(w: World, n: nat, before: World) returns (w': World)
    requires AllReleased(before, n)
    requires Reachable(w, {}) && !w.entry.disposed
    requires w.phases == before.phases + [Executing] && |w.ids| == |w.reports| == n + 1
    requires w.entry.active == Some(ActiveTurn(w.ids[n], n))
    ensures AllReleased(w', n + 1) && w'.ids == w.ids
  {
    hide Reachable;
    hide Exec;
    ReachableStep(w, ExecutorReturns(n, None));
    w' := Apply(w, ExecutorReturns(n, None));
    ReachableStep(w', Record(n));
    w' := Apply(w', Record(n));
    ReachableStep(w', Release(n));
    w' := Apply(w', Release(n));
  }

  /** Any number of turns can hand off to one another without ever finishing. */
  lemma {:induction false} ManyHandoffs(n: nat) returns (w: World)
    ensures AllReleased(w, n)
    ensures forall t :: 0 <= t < n ==> w.ids[t] == t
  {
    if n == 0 {
      w := Start(None, RECENT_INVOCATION_CAPACITY);
      assert Exec(w, [], {}) == At(w);
    } else {
      var before := ManyHandoffs(n - 1);
      ReachableRecency(before, {});
      var admitted := AdmitNext(before, n - 1, n - 1);
      w := ReleaseNext(admitted, n - 1, before);
    }
  }

  /** After 1,025 hand-offs the first turn's identifier is admitted again, and the first turn then finishes. */
  lemma SlotIsTaken() returns (w: World, n: nat)
    ensures Reachable(w, {}) && !w.entry.disposed && w.entry.active.None?
    ensures |w.ids| == |w.phases| == |w.reports| == n + 1 && w.phases[n] == Executing
  {
    hide Reachable;
    hide Exec;
    n := RECENT_INVOCATION_CAPACITY + 1;
    var handed := ManyHandoffs(n);
    ReachableRecency(handed, {});
    var reused := AdmitNext(handed, n, 0);
    w := LateFinish(reused, n);
  }

  lemma AdmitFresh(w: World) returns (w': World, id: InvocationId)
    requires Reachable(w, {}) && !w.entry.disposed && w.entry.active.None?
    ensures Reachable(w', {}) && w'.spec == w.spec
    ensures w'.ids == w.ids + [id] && w'.phases == w.phases + [Executing] && w'.reports == w.reports + [None]
    ensures w'.given == w.given + [w.entry.session]
  {
    hide Reachable;
    hide Exec;
    id := NewId(w.entry.recent);
    ReachableStep(w, Submit(id, Turn));
    var asked := Apply(w, Submit(id, Turn));
    ReachableStep(asked, Round(|w.requests|));
    w' := Apply(asked, Round(|w.requests|));
  }

  lemma {:induction false} NewId(ids: set<InvocationId>) returns (id: InvocationId)
    ensures id !in ids && forall i :: i in ids ==> i < id
    decreases |ids|
  {
    if ids == {} {
      id := 0;
    } else {
      var i :| i in ids;
      id := NewId(ids - {i});
      if id <= i {
        id := i + 1;
      }
      assert forall j :: j in ids ==> j == i || j in ids - {i};
    }
  }

  /** The bound is tight: with 1,025 admissions since its own, turn 0 finishes and clears the slot
      of an executing turn that reuses its identifier, and a second executor is then admitted. */
  lemma LateFinishAllowsTwoExecutors() returns (w: World, t: nat, u: nat)
    ensures Reachable(w, {})
    ensures t < u < |w.phases| && w.phases[t].Executing? && w.phases[u].Executing?
  {
    hide Reachable;
    hide Exec;
    var cleared, n := SlotIsTaken();
    var id;
    w, id := AdmitFresh(cleared);
    t, u := n, n + 1;
  }

  /** And the session that the robbed turn reports is lost: the next turn is not given it. */
  lemma LateFinishLosesReport() returns (w: World, u: nat)
    ensures Reachable(w, {})
    ensures u < |w.given| && u <= |w.reports| && w.given[u] != LastReported(w.spec, w.reports[..u])
  {
    hide Reachable;
    hide Exec;
    var cleared, n := SlotIsTaken();
    ReachableInv(cleared, {});
    var report := if cleared.entry.session == Some(0) then 1 else 0;
    ReachableStep(cleared, ExecutorReturns(n, Some(report)));
    var returned := Apply(cleared, ExecutorReturns(n, Some(report)));
    ReachableStep(returned, Record(n));
    var recorded := Apply(returned, Record(n));
    var id;
    w, id := AdmitFresh(recorded);
    u := n + 1;
    assert w.reports[..u] == recorded.reports;
  }

  lemma LateFinish(w: World, n: nat) returns (w': World)
    requires Reachable(w, {}) && !w.entry.disposed && n > 0
    requires |w.ids| == |w.phases| == |w.reports| == n + 1 && w.ids[0] == w.ids[n] == 0
    requires forall t :: 0 < t < n ==> w.ids[t] == t
    requires w.phases[0] == Released && w.phases[n] == Executing
    requires w.entry.active == Some(ActiveTurn(0, n))
    ensures Reachable(w', {}) && !w'.entry.disposed && w'.entry.active.None?
    ensures w'.ids == w.ids && |w'.phases| == |w'.reports| == n + 1 && w'.phases[n] == Executing
  {
    hide Reachable;
    hide Exec;
    ReachableStep(w, Finish(0, Succeeded));
    w' := Apply(w, Finish(0, Succeeded));
  }
}
