/** The bounded journal refines an unbounded one.

    A runtime's history is every invocation ever admitted, in order, and for each the complete log
    of accepted events since its latest admission. The bounded journal answers and changes exactly
    as that history says, as long as sequence numbers stay below the largest 64-bit value. */
module JournalHistory {
  import opened Basics
  import opened Events
  import opened RecentWindow
  import opened Journal

  datatype History = History(created: seq<InvocationId>, logs: map<InvocationId, seq<Envelope>>)

  const EMPTY_HISTORY: History := History([], map[])

  /** Accepted events are numbered from 1 without gaps. */
  ghost predicate Numbered(log: seq<Envelope>, id: InvocationId) {
    forall k :: 0 <= k < |log| ==> log[k].sequence == k + 1 && log[k].invocation == id
  }

  /** A window holds the last `maximum` events of the log and counts the rest. */
  ghost predicate Represents(w: Window, log: seq<Envelope>, maximum: nat) {
    IsTail(w.events, log, maximum) && w.evictedThrough == |log| - |w.events|
  }

  // --- one invocation ---

  function LogOutcome(log: seq<Envelope>, e: Envelope, maximum: nat): (r: AppendOutcome)
    ensures !r.StateInvariant? && !r.UnsupportedSchema?
  {
    if e.sequence == |log| + 1 then Appended
    else if e.sequence > |log| then SequenceGap(|log| + 1, e.sequence)
    else if e.sequence >= 1 && e.sequence > |log| - maximum && log[e.sequence - 1] == e then AlreadyPresent
    else SequenceConflict(e.sequence)
  }

  function LogAfter(log: seq<Envelope>, e: Envelope): (r: seq<Envelope>) {
    if e.sequence == |log| + 1 then log + [e] else log
  }

  lemma ExpectedIsNext(w: Window, log: seq<Envelope>, maximum: nat, id: InvocationId)
    requires Represents(w, log, maximum) && Numbered(log, id) && maximum > 0
    ensures Expected(w) == SaturatingSucc(|log|)
  {
    if w.events != [] {
      assert w.events[|w.events| - 1] == log[|log| - 1];
    }
  }

  lemma HoldsMeaning(w: Window, log: seq<Envelope>, maximum: nat, id: InvocationId, e: Envelope)
    requires Represents(w, log, maximum) && Numbered(log, id)
    ensures Holds(w.events, e) <==>
              e.sequence >= 1 && |log| - maximum < e.sequence <= |log| && log[e.sequence - 1] == e
  {
    var d := |log| - |w.events|;
    if e.sequence >= 1 && |log| - maximum < e.sequence <= |log| && log[e.sequence - 1] == e {
      assert w.events[e.sequence - 1 - d] == e;
    }
  }

  /** The counter has not saturated for this envelope: the log is shorter than the largest 64-bit value, or the
      envelope does not carry that value. */
  predicate Room(length: nat, e: Envelope) {
    length < U64_MAX || e.sequence < U64_MAX
  }

  /** The window answers as the whole log would. */
  lemma WindowOutcomeRefines(w: Window, log: seq<Envelope>, maximum: nat, id: InvocationId, e: Envelope)
    requires Represents(w, log, maximum) && Numbered(log, id) && maximum > 0 && Room(|log|, e)
    ensures WindowOutcome(w, e) == LogOutcome(log, e, maximum)
  {
    ExpectedIsNext(w, log, maximum, id);
    HoldsMeaning(w, log, maximum, id, e);
  }

  /** For 64-bit numbers that is the exact condition. */
  lemma WindowOutcomeRefinesIff(w: Window, log: seq<Envelope>, maximum: nat, id: InvocationId, e: Envelope)
    requires Represents(w, log, maximum) && Numbered(log, id) && maximum > 0 && e.sequence <= U64_MAX
    ensures WindowOutcome(w, e) == LogOutcome(log, e, maximum) <==> Room(|log|, e)
  {
    ExpectedIsNext(w, log, maximum, id);
    if Room(|log|, e) {
      WindowOutcomeRefines(w, log, maximum, id, e);
    }
  }

  lemma TrimRepresents(w: Window, log: seq<Envelope>, maximum: nat, id: InvocationId, e: Envelope)
    requires Represents(w, log, maximum) && Numbered(log, id) && maximum > 0
    ensures Represents(Trim(w.events + [e], w.evictedThrough, maximum), log + [e], maximum)
  {
    TailOfPush(w.events, log, e, maximum);
    if |w.events| == maximum {
      assert w.events[0] == log[|log| - maximum];
      assert (w.events + [e])[|w.events + [e]| - maximum - 1] == w.events[0];
    }
  }

  lemma NumberedPush(log: seq<Envelope>, id: InvocationId, e: Envelope)
    requires Numbered(log, id) && e.sequence == |log| + 1 && e.invocation == id
    ensures Numbered(log + [e], id)
  {
  }

  /** The window after an append represents the log after that append. */
  lemma WindowRefinesLog(w: Window, log: seq<Envelope>, maximum: nat, id: InvocationId, e: Envelope)
    requires Represents(w, log, maximum) && Numbered(log, id) && maximum > 0
    requires Room(|log|, e) && e.invocation == id
    ensures Represents(WindowAfter(w, e, maximum), LogAfter(log, e), maximum)
    ensures Numbered(LogAfter(log, e), id)
  {
    WindowOutcomeRefines(w, log, maximum, id, e);
    if WindowOutcome(w, e).Appended? {
      assert LogAfter(log, e) == log + [e];
      NumberedPush(log, id, e);
      TrimRepresents(w, log, maximum, id, e);
      assert WindowAfter(w, e, maximum) == Trim(w.events + [e], w.evictedThrough, maximum);
    } else {
      assert LogAfter(log, e) == log;
    }
  }

  /** Sequence numbers keep their meaning exactly while the counter has not saturated: at the top
      value a second event with the same number is accepted. */
  lemma NumberingHoldsBelowTheTop(w: Window, log: seq<Envelope>, maximum: nat, id: InvocationId)
    requires Represents(w, log, maximum) && Numbered(log, id) && maximum > 0
    ensures (forall e :: WindowOutcome(w, e).Appended? ==> e.sequence == |log| + 1) <==> |log| < U64_MAX
  {
    ExpectedIsNext(w, log, maximum, id);
    if |log| >= U64_MAX {
      var e := Envelope(1, 0, id, U64_MAX, 0, InvocationStarted);
      assert WindowOutcome(w, e).Appended? && e.sequence != |log| + 1;
    }
  }

  // --- one runtime ---

  /** Live and evicted queues together are the last `2 * maximum` admissions, the live ones last. */
  ghost predicate QueuesAreTail(rt: RuntimeJournal, created: seq<InvocationId>, maximum: nat) {
    && IsTail(rt.evictedOrder + rt.order, created, 2 * maximum)
    && |rt.order| == (if |created| <= maximum then |created| else maximum)
  }

  ghost predicate WindowOk(w: Window, id: InvocationId, logs: map<InvocationId, seq<Envelope>>, maxEvents: nat) {
    id in logs && Represents(w, logs[id], maxEvents) && Numbered(logs[id], id)
  }

  ghost predicate WindowsRepresent(invocations: map<InvocationId, Window>, logs: map<InvocationId, seq<Envelope>>, maxEvents: nat) {
    forall id :: id in invocations ==> WindowOk(invocations[id], id, logs, maxEvents)
  }

  ghost predicate Refines(rt: RuntimeJournal, h: History, maximum: nat, maxEvents: nat) {
    && Agree(rt)
    && QueuesAreTail(rt, h.created, maximum)
    && Spaced(h.created, 2 * maximum)
    && WindowsRepresent(rt.invocations, h.logs, maxEvents)
  }

  /** The invocations still live: the last `maximum` admitted. */
  function Live(h: History, maximum: nat): (r: seq<InvocationId>) {
    Last(h.created, maximum)
  }

  /** The invocations remembered as evicted: the `maximum` admitted before those. */
  function Gone(h: History, maximum: nat): (r: seq<InvocationId>) {
    Last(h.created[..|h.created| - |Live(h, maximum)|], maximum)
  }

  /** The answer read off the history alone. */
  function HistoryOutcome(h: History, e: Envelope, maximum: nat, maxEvents: nat): (r: AppendOutcome)
    ensures !r.StateInvariant? && !r.UnsupportedSchema?
  {
    if e.invocation in Gone(h, maximum) then SequenceConflict(e.sequence)
    else if e.invocation in Live(h, maximum) then
      LogOutcome(if e.invocation in h.logs then h.logs[e.invocation] else [], e, maxEvents)
    else if e.sequence == 1 then Appended
    else SequenceGap(1, e.sequence)
  }

  function HistoryAfter(h: History, e: Envelope, maximum: nat): (r: History) {
    if e.invocation in Gone(h, maximum) then h
    else if e.invocation in Live(h, maximum) then
      if e.invocation in h.logs then h.(logs := h.logs[e.invocation := LogAfter(h.logs[e.invocation], e)]) else h
    else if e.sequence == 1 then History(h.created + [e.invocation], h.logs[e.invocation := [e]])
    else h
  }

  /** The counter of a live invocation has not saturated for this envelope. */
  predicate HasRoom(h: History, e: Envelope, maximum: nat) {
    e.invocation in Live(h, maximum) && e.invocation in h.logs ==> Room(|h.logs[e.invocation]|, e)
  }

  /** The queues are exactly the live and the gone invocations. */
  lemma QueuesMeaning(rt: RuntimeJournal, h: History, maximum: nat)
    requires QueuesAreTail(rt, h.created, maximum)
    ensures rt.order == Live(h, maximum)
    ensures rt.evictedOrder == Gone(h, maximum)
  {
    var joint := rt.evictedOrder + rt.order;
    var c := h.created;
    var k := |rt.evictedOrder|;
    forall i | 0 <= i < |rt.order|
      ensures rt.order[i] == c[|c| - |rt.order| + i]
    {
      assert joint[k + i] == rt.order[i];
    }
    forall i | 0 <= i < k
      ensures rt.evictedOrder[i] == c[|c| - |rt.order| - k + i]
    {
      assert joint[i] == rt.evictedOrder[i];
    }
  }

  /** What admitting a new invocation does to the queues and the windows. */
  lemma AdmitMoves(rt: RuntimeJournal, id: InvocationId, maximum: nat)
    requires Agree(rt) && id !in rt.invocations && id !in rt.evicted
    ensures var r := Admit(rt, id, maximum);
            var joint := rt.evictedOrder + rt.order + [id];
            && Agree(r)
            && |r.order| == (if |rt.order| + 1 > maximum then maximum else |rt.order| + 1)
            && |r.evictedOrder| == (if |joint| - |r.order| > maximum then maximum else |joint| - |r.order|)
            && r.evictedOrder + r.order == joint[|joint| - |r.evictedOrder| - |r.order|..]
  {
    var inserted := Insert(rt, id);
    InsertAgrees(rt, id);
    EvictExcessMoves(inserted, maximum);
    var evicted := EvictExcess(inserted, maximum);
    ForgetExcessDrops(evicted, maximum);
    var r := Admit(rt, id, maximum);
    var joint := rt.evictedOrder + rt.order + [id];
    assert evicted.evictedOrder + evicted.order == joint;
    var k := |evicted.evictedOrder| - |r.evictedOrder|;
    assert evicted.evictedOrder[k..] + r.order == (evicted.evictedOrder + r.order)[k..];
  }

  lemma AdmitKeepsWindows(rt: RuntimeJournal, id: InvocationId, maximum: nat)
    requires Agree(rt) && id !in rt.invocations && id !in rt.evicted && maximum > 0
    ensures var r := Admit(rt, id, maximum);
            && id in r.invocations && r.invocations[id] == Window([], 0)
            && (forall other :: other in r.invocations && other != id ==>
                  other in rt.invocations && r.invocations[other] == rt.invocations[other])
  {
    var inserted := Insert(rt, id);
    InsertAgrees(rt, id);
    EvictExcessMoves(inserted, maximum);
    var evicted := EvictExcess(inserted, maximum);
    ForgetExcessDrops(evicted, maximum);
    AdmitMoves(rt, id, maximum);
    var r := Admit(rt, id, maximum);
    assert (r.evictedOrder + r.order)[|r.evictedOrder| + |r.order| - 1] == id;
    assert r.order[|r.order| - 1] == id;
    assert id in Elements(r.order);
  }

  lemma SuffixIsTail<T>(now: seq<T>, before: seq<T>, history: seq<T>, x: T, n: nat)
    requires IsTail(before, history, n)
    requires |now| == (if |history| + 1 <= n then |history| + 1 else n)
    requires |now| <= |before| + 1 && now == (before + [x])[|before| + 1 - |now|..]
    ensures IsTail(now, history + [x], n)
  {
    var d := |before| + 1 - |now|;
    forall i | 0 <= i < |now|
      ensures now[i] == (history + [x])[|history| + 1 - |now| + i]
    {
      assert now[i] == (before + [x])[d + i];
      if i < |now| - 1 {
        assert (before + [x])[d + i] == before[d + i];
      }
    }
  }

  lemma QueuesAfterAdmit(rt: RuntimeJournal, created: seq<InvocationId>, id: InvocationId, maximum: nat)
    requires Agree(rt) && QueuesAreTail(rt, created, maximum)
    requires id !in rt.invocations && id !in rt.evicted
    ensures QueuesAreTail(Admit(rt, id, maximum), created + [id], maximum)
  {
    AdmitMoves(rt, id, maximum);
    var r := Admit(rt, id, maximum);
    SuffixIsTail(r.evictedOrder + r.order, rt.evictedOrder + rt.order, created, id, 2 * maximum);
  }

  lemma SpacedAfterAdmit(rt: RuntimeJournal, created: seq<InvocationId>, id: InvocationId, maximum: nat)
    requires Agree(rt) && QueuesAreTail(rt, created, maximum) && Spaced(created, 2 * maximum)
    requires id !in rt.invocations && id !in rt.evicted
    ensures Spaced(created + [id], 2 * maximum)
  {
    var joint := rt.evictedOrder + rt.order;
    TailIsLast(joint, created, 2 * maximum);
    assert id !in Elements(rt.order) && id !in Elements(rt.evictedOrder);
    assert id !in joint;
    SpacedPush(created, id, 2 * maximum);
  }

  /** Only the window of the named invocation changes, together with its log. */
  lemma WindowsAfter(invocations: map<InvocationId, Window>, invocations': map<InvocationId, Window>, logs: map<InvocationId, seq<Envelope>>,
                     id: InvocationId, w: Window, log: seq<Envelope>, maxEvents: nat)
    requires WindowsRepresent(invocations, logs, maxEvents)
    requires forall other :: other in invocations' && other != id ==> other in invocations && invocations'[other] == invocations[other]
    requires Represents(w, log, maxEvents) && Numbered(log, id)
    ensures WindowsRepresent(invocations'[id := w], logs[id := log], maxEvents)
  {
    var now := invocations'[id := w];
    forall other | other in now
      ensures WindowOk(now[other], other, logs[id := log], maxEvents)
    {
      if other != id {
        assert WindowOk(invocations[other], other, logs, maxEvents);
      }
    }
  }

  lemma AgreeAfterSet(rt: RuntimeJournal, id: InvocationId, w: Window)
    requires Agree(rt) && id in rt.invocations
    ensures Agree(SetWindow(rt, id, w))
  {
    assert SetWindow(rt, id, w).invocations.Keys == rt.invocations.Keys;
  }

  lemma KnownAfter(rt: RuntimeJournal, h: History, e: Envelope, maximum: nat, maxEvents: nat)
    requires Refines(rt, h, maximum, maxEvents) && maximum > 0 && maxEvents > 0
    requires e.invocation in rt.invocations && HasRoom(h, e, maximum)
    ensures var id := e.invocation;
            && id in h.logs
            && WindowOutcome(rt.invocations[id], e) == LogOutcome(h.logs[id], e, maxEvents)
            && Refines(SetWindow(rt, id, WindowAfter(rt.invocations[id], e, maxEvents)),
                       h.(logs := h.logs[id := LogAfter(h.logs[id], e)]), maximum, maxEvents)
  {
    var id := e.invocation;
    var w := rt.invocations[id];
    MembershipMeaning(rt, h, maximum, maxEvents, id);
    assert WindowOk(w, id, h.logs, maxEvents);
    WindowOutcomeRefines(w, h.logs[id], maxEvents, id, e);
    WindowRefinesLog(w, h.logs[id], maxEvents, id, e);
    var w' := WindowAfter(w, e, maxEvents);
    WindowsAfter(rt.invocations, rt.invocations, h.logs, id, w', LogAfter(h.logs[id], e), maxEvents);
    AgreeAfterSet(rt, id, w');
  }

  lemma FirstEvent(e: Envelope, maxEvents: nat)
    requires e.sequence == 1 && maxEvents > 0
    ensures WindowOutcome(Window([], 0), e).Appended?
    ensures WindowAfter(Window([], 0), e, maxEvents) == Window([e], 0)
  {
    assert [] + [e] == [e];
    assert Last([e], maxEvents) == [e];
  }

  lemma AdmitAgrees(rt: RuntimeJournal, id: InvocationId, maximum: nat)
    requires Agree(rt) && id !in rt.invocations && id !in rt.evicted
    ensures Agree(Admit(rt, id, maximum))
  {
    AdmitMoves(rt, id, maximum);
  }

  lemma NewAfter(rt: RuntimeJournal, h: History, e: Envelope, maximum: nat, maxEvents: nat)
    requires Refines(rt, h, maximum, maxEvents) && maximum > 0 && maxEvents > 0
    requires e.invocation !in rt.invocations && e.invocation !in rt.evicted && e.sequence == 1
    ensures RuntimeOutcome(rt, e, maximum).Appended?
    ensures Refines(RuntimeAfter(rt, e, maximum, maxEvents),
                    History(h.created + [e.invocation], h.logs[e.invocation := [e]]), maximum, maxEvents)
  {
    var id := e.invocation;
    var admitted := Admit(rt, id, maximum);
    AdmitKeepsWindows(rt, id, maximum);
    FirstEvent(e, maxEvents);
    var rt' := SetWindow(admitted, id, Window([e], 0));
    assert RuntimeAfter(rt, e, maximum, maxEvents) == rt';
    NewRefines(rt, h, e, maximum, maxEvents);
  }

  /** Admitting an invocation brings no other one back. */
  lemma NewBringsOnlyItself(rt: RuntimeJournal, e: Envelope, maximum: nat, maxEvents: nat)
    requires Agree(rt) && maximum > 0
    requires e.invocation !in rt.invocations && e.invocation !in rt.evicted && e.sequence == 1
    ensures forall other :: other in RuntimeAfter(rt, e, maximum, maxEvents).invocations && other != e.invocation ==>
              other in rt.invocations
  {
    AdmitKeepsWindows(rt, e.invocation, maximum);
  }

  lemma NewRefines(rt: RuntimeJournal, h: History, e: Envelope, maximum: nat, maxEvents: nat)
    requires Refines(rt, h, maximum, maxEvents) && maximum > 0 && maxEvents > 0
    requires e.invocation !in rt.invocations && e.invocation !in rt.evicted && e.sequence == 1
    ensures Refines(SetWindow(Admit(rt, e.invocation, maximum), e.invocation, Window([e], 0)),
                    History(h.created + [e.invocation], h.logs[e.invocation := [e]]), maximum, maxEvents)
  {
    var id := e.invocation;
    var admitted := Admit(rt, id, maximum);
    AdmitAgrees(rt, id, maximum);
    AdmitKeepsWindows(rt, id, maximum);
    WindowsAfter(rt.invocations, admitted.invocations, h.logs, id, Window([e], 0), [e], maxEvents);
    SpacedAfterAdmit(rt, h.created, id, maximum);
    AgreeAfterSet(admitted, id, Window([e], 0));
    QueuesAfterAdmit(rt, h.created, id, maximum);
  }

  lemma MembershipMeaning(rt: RuntimeJournal, h: History, maximum: nat, maxEvents: nat, id: InvocationId)
    requires Refines(rt, h, maximum, maxEvents)
    ensures id in rt.invocations <==> id in Live(h, maximum)
    ensures id in rt.evicted <==> id in Gone(h, maximum)
  {
    QueuesMeaning(rt, h, maximum);
    assert id in rt.invocations.Keys <==> id in Elements(rt.order);
  }

  /** One append: the bounded journal answers as the history does, and keeps refining it. */
  lemma RuntimeRefines(rt: RuntimeJournal, h: History, e: Envelope, maximum: nat, maxEvents: nat)
    requires Refines(rt, h, maximum, maxEvents) && maximum > 0 && maxEvents > 0 && HasRoom(h, e, maximum)
    ensures RuntimeOutcome(rt, e, maximum) == HistoryOutcome(h, e, maximum, maxEvents)
    ensures Refines(RuntimeAfter(rt, e, maximum, maxEvents), HistoryAfter(h, e, maximum), maximum, maxEvents)
  {
    var id := e.invocation;
    MembershipMeaning(rt, h, maximum, maxEvents, id);
    if id in rt.evicted {
    } else if id in rt.invocations {
      KnownAfter(rt, h, e, maximum, maxEvents);
    } else if e.sequence == 1 {
      NewAfter(rt, h, e, maximum, maxEvents);
    }
  }

  // --- the whole journal, over every run ---

  datatype Op = DoAppend(e: Envelope) | DoRemove(runtime: RuntimeId)

  /** The journal next to the history of every registered runtime. */
  datatype World = World(state: State, histories: map<RuntimeId, History>)

  function HistoryOf(histories: map<RuntimeId, History>, id: RuntimeId): (h: History) {
    if id in histories then histories[id] else EMPTY_HISTORY
  }

  function Apply(w: World, op: Op, limits: Limits): (w': World) {
    match op
    case DoRemove(id) => World(AfterRemove(w.state, id), w.histories - {id})
    case DoAppend(e) =>
      var state := After(w.state, e, limits);
      if e.schemaVersion != 1 then World(state, w.histories)
      else
        var h := HistoryAfter(HistoryOf(w.histories, e.runtime), e, limits.maxInvocations);
        World(state, map id | id in state.runtimes :: if id == e.runtime then h else HistoryOf(w.histories, id))
  }

  function Exec(ops: seq<Op>, limits: Limits): (w: World) {
    if ops == [] then World(State(map[], []), map[])
    else Apply(Exec(ops[..|ops| - 1], limits), ops[|ops| - 1], limits)
  }

  predicate Fits(w: World, op: Op, limits: Limits) {
    op.DoAppend? ==> HasRoom(HistoryOf(w.histories, op.e.runtime), op.e, limits.maxInvocations)
  }

  ghost predicate AllRefine(runtimes: map<RuntimeId, RuntimeJournal>, histories: map<RuntimeId, History>, limits: Limits) {
    && runtimes.Keys == histories.Keys
    && forall id :: id in runtimes ==> Refines(runtimes[id], histories[id], limits.maxInvocations, limits.maxEvents)
  }

  ghost predicate Inv(w: World, limits: Limits) {
    && StateOk(w.state) && |w.state.order| <= limits.maxRuntimes
    && AllRefine(w.state.runtimes, w.histories, limits)
  }

  lemma EmptyRefines(maximum: nat, maxEvents: nat)
    ensures Refines(EMPTY_RUNTIME, EMPTY_HISTORY, maximum, maxEvents)
  {
  }

  lemma {:induction false} DropExcessBounds(s: State, maximum: nat)
    ensures |DropExcessRuntimes(s, maximum).order| <= maximum || |DropExcessRuntimes(s, maximum).order| <= |s.order| <= maximum
    decreases |s.order|
  {
    if |s.order| > maximum {
      DropExcessBounds(DropOldestRuntime(s), maximum);
    }
  }

  /** The runtime's journal before the append refines its history so far. */
  lemma RegisteredRefines(w: World, id: RuntimeId, limits: Limits)
    requires Inv(w, limits) && LimitsOk(limits)
    ensures var s := Registered(w.state, id, limits.maxRuntimes);
            && StateOk(s) && |s.order| <= limits.maxRuntimes && id in s.runtimes
            && (forall other :: other in s.runtimes ==>
                  Refines(s.runtimes[other], HistoryOf(w.histories, other), limits.maxInvocations, limits.maxEvents))
  {
    RegisteredHolds(w.state, id, limits.maxRuntimes);
    if id !in w.state.runtimes {
      DropExcessBounds(State(w.state.runtimes[id := EMPTY_RUNTIME], w.state.order + [id]), limits.maxRuntimes);
      EmptyRefines(limits.maxInvocations, limits.maxEvents);
    }
  }

  /** One append to the whole journal answers as the runtime's history says. */
  lemma AppendRefines(w: World, e: Envelope, limits: Limits)
    requires Inv(w, limits) && LimitsOk(limits) && Fits(w, DoAppend(e), limits)
    ensures Outcome(w.state, e, limits) ==
              if e.schemaVersion != 1 then UnsupportedSchema(e.schemaVersion)
              else HistoryOutcome(HistoryOf(w.histories, e.runtime), e, limits.maxInvocations, limits.maxEvents)
    ensures Inv(Apply(w, DoAppend(e), limits), limits)
  {
    hide Refines;
    hide RuntimeAfter;
    hide RuntimeOutcome;
    hide HistoryAfter;
    hide HistoryOutcome;
    hide HasRoom;
    if e.schemaVersion == 1 {
      RegisteredRefines(w, e.runtime, limits);
      var s := Registered(w.state, e.runtime, limits.maxRuntimes);
      RuntimeRefines(s.runtimes[e.runtime], HistoryOf(w.histories, e.runtime), e, limits.maxInvocations, limits.maxEvents);
      assert After(w.state, e, limits).runtimes.Keys == s.runtimes.Keys;
    }
  }

  lemma RemoveKeepsInv(w: World, id: RuntimeId, limits: Limits)
    requires Inv(w, limits)
    ensures Inv(Apply(w, DoRemove(id), limits), limits)
  {
    WithoutRemoves(w.state.order, id);
    ElementsSize(w.state.order);
    ElementsSize(Without(w.state.order, id));
    assert |Elements(w.state.order) - {id}| <= |Elements(w.state.order)|;
  }

  /** No append of the run met a saturated counter. */
  ghost predicate BelowTheTop(ops: seq<Op>, limits: Limits) {
    ops != [] ==>
      BelowTheTop(ops[..|ops| - 1], limits) && Fits(Exec(ops[..|ops| - 1], limits), ops[|ops| - 1], limits)
  }

  /** In every run of appends and removals the journal refines the unbounded histories. */
  lemma {:induction false} RunRefines(ops: seq<Op>, limits: Limits)
    requires LimitsOk(limits) && BelowTheTop(ops, limits)
    ensures Inv(Exec(ops, limits), limits)
  {
    if ops != [] {
      RunRefines(ops[..|ops| - 1], limits);
      var w := Exec(ops[..|ops| - 1], limits);
      match ops[|ops| - 1]
      case DoAppend(e) => AppendRefines(w, e, limits);
      case DoRemove(id) => RemoveKeepsInv(w, id, limits);
    }
  }

  /** Some run of appends and removals ends here. */
  ghost predicate Reached(w: World, limits: Limits) {
    LimitsOk(limits) && exists ops :: BelowTheTop(ops, limits) && w == Exec(ops, limits)
  }

  lemma ReachedInv(w: World, limits: Limits)
    requires Reached(w, limits)
    ensures Inv(w, limits)
  {
    var ops :| BelowTheTop(ops, limits) && w == Exec(ops, limits);
    RunRefines(ops, limits);
  }

  /** Answered from the history alone; in particular never with an internal-invariant failure. */
  lemma OutcomeRefines(w: World, e: Envelope, limits: Limits)
    requires Inv(w, limits) && LimitsOk(limits) && Fits(w, DoAppend(e), limits) && e.schemaVersion == 1
    ensures Outcome(w.state, e, limits)
              == HistoryOutcome(HistoryOf(w.histories, e.runtime), e, limits.maxInvocations, limits.maxEvents)
    ensures !Outcome(w.state, e, limits).StateInvariant?
  {
    AppendRefines(w, e, limits);
  }

  /** In every run the next append is answered from the history alone; in particular an
      internal-invariant failure is never reported. */
  lemma AnswersFollowHistory(w: World, e: Envelope, limits: Limits)
    requires Reached(w, limits) && Fits(w, DoAppend(e), limits) && e.schemaVersion == 1
    ensures Outcome(w.state, e, limits)
              == HistoryOutcome(HistoryOf(w.histories, e.runtime), e, limits.maxInvocations, limits.maxEvents)
    ensures !Outcome(w.state, e, limits).StateInvariant?
  {
    assert Inv(w, limits) by { ReachedInv(w, limits); }
    OutcomeRefines(w, e, limits);
  }

  /** In every run each retained window is the tail of its log, with the rest counted, and no more
      runtimes are retained than allowed. */
  lemma WindowsAreTails(w: World, limits: Limits, rt: RuntimeId, id: InvocationId)
    requires Reached(w, limits)
    requires rt in w.state.runtimes && id in w.state.runtimes[rt].invocations
    ensures rt in w.histories && id in w.histories[rt].logs
    ensures var window, log := w.state.runtimes[rt].invocations[id], w.histories[rt].logs[id];
      && window.events == Last(log, limits.maxEvents)
      && window.evictedThrough == |log| - |window.events|
      && Numbered(log, id)
    ensures |w.state.order| <= limits.maxRuntimes
  {
    ReachedInv(w, limits);
    var window := w.state.runtimes[rt].invocations[id];
    assert WindowOk(window, id, w.histories[rt].logs, limits.maxEvents);
    TailIsLast(window.events, w.histories[rt].logs[id], limits.maxEvents);
  }

  /** An invocation identifier is admitted again only after `2 * maxInvocations` others. */
  lemma ReadmissionsAreSpaced(w: World, limits: Limits, rt: RuntimeId)
    requires Reached(w, limits) && rt in w.histories
    ensures Spaced(w.histories[rt].created, 2 * limits.maxInvocations)
  {
    ReachedInv(w, limits);
  }

  /** A refused append to an unknown runtime still registers it, and pushes the oldest one out of a
      full journal. */
  lemma RefusedAppendCanEvict(s: State, e: Envelope, limits: Limits)
    requires StateOk(s) && LimitsOk(limits) && |s.order| == limits.maxRuntimes
    requires e.schemaVersion == 1 && e.runtime !in s.runtimes && e.sequence != 1
    ensures Outcome(s, e, limits) == SequenceGap(1, e.sequence)
    ensures e.runtime in After(s, e, limits).runtimes && After(s, e, limits).runtimes[e.runtime] == EMPTY_RUNTIME
    ensures s.order[0] in s.runtimes && s.order[0] !in After(s, e, limits).runtimes
  {
    RegisteredHolds(s, e.runtime, limits.maxRuntimes);
    RegisterNewOk(s, e.runtime);
    var inserted := State(s.runtimes[e.runtime := EMPTY_RUNTIME], s.order + [e.runtime]);
    DropExcessKeeps(inserted, limits.maxRuntimes);
    var kept := DropExcessRuntimes(inserted, limits.maxRuntimes);
    assert s.order[0] in Elements(s.order);
    assert s.order[0] !in kept.order by {
      assert inserted.order[0] == s.order[0];
      forall i | 0 <= i < |kept.order|
        ensures kept.order[i] != s.order[0]
      {
        assert kept.order[i] == inserted.order[1 + i];
      }
    }
    assert kept.runtimes.Keys == Elements(kept.order);
  }

  /** A refused append leaves the runtime's own journal as it was. */
  lemma RefusedKeepsRuntime(rt: RuntimeJournal, e: Envelope, maximum: nat, maxEvents: nat)
    requires Agree(rt) && maximum > 0
    requires !RuntimeOutcome(rt, e, maximum).Appended?
    ensures RuntimeAfter(rt, e, maximum, maxEvents) == rt
  {
    if e.invocation in rt.evicted {
    } else if e.invocation in rt.invocations {
      assert rt.invocations[e.invocation := rt.invocations[e.invocation]] == rt.invocations;
    } else if e.sequence == 1 {
      AdmitKeepsWindows(rt, e.invocation, maximum);
    }
  }

  /** The exact condition: an append that is not accepted changes nothing if and only if its schema is refused or
      its runtime was registered already. */
  lemma RefusedAppendIsNoOpIff(w: World, e: Envelope, limits: Limits)
    requires Inv(w, limits) && LimitsOk(limits) && !Outcome(w.state, e, limits).Appended?
    ensures After(w.state, e, limits) == w.state <==> e.schemaVersion != 1 || e.runtime in w.state.runtimes
  {
    if e.schemaVersion == 1 {
      RegisteredHolds(w.state, e.runtime, limits.maxRuntimes);
      if e.runtime in w.state.runtimes {
        var rt := w.state.runtimes[e.runtime];
        assert Refines(rt, w.histories[e.runtime], limits.maxInvocations, limits.maxEvents);
        RefusedKeepsRuntime(rt, e, limits.maxInvocations, limits.maxEvents);
        hide RuntimeAfter;
        assert w.state.runtimes[e.runtime := rt] == w.state.runtimes;
      }
    }
  }
}
