/** The bounded in-memory event journal: appending. Replay is in module Replay.

    The per-runtime and per-invocation journals are owned by the maps that hold them, so they are
    values here; the journal object itself is a class that reassigns them. */
module Journal {
  import opened Basics
  import opened Events
  import opened RecentWindow

  datatype AppendOutcome =
    | Appended
    | AlreadyPresent
    | UnsupportedSchema(version: nat)
    | SequenceGap(expected: nat, actual: nat)
    | SequenceConflict(sequence: nat)
    | StateInvariant

  datatype Limits = Limits(maxRuntimes: nat, maxInvocations: nat, maxEvents: nat, maxReplay: nat)

  predicate LimitsOk(limits: Limits) {
    limits.maxRuntimes > 0 && limits.maxInvocations > 0 && limits.maxEvents > 0 && limits.maxReplay > 0
  }

  // ---------------------------------------------------------------------------------------
  // One invocation: a window over its events.

  datatype Window = Window(events: seq<Envelope>, evictedThrough: nat)

  function Expected(w: Window): (n: nat) {
    SaturatingSucc(if w.events == [] then w.evictedThrough else w.events[|w.events| - 1].sequence)
  }

  /** The first retained event with this sequence, if any, is this very envelope. */
  predicate Holds(events: seq<Envelope>, e: Envelope) {
    exists i :: 0 <= i < |events| && events[i] == e && forall j :: 0 <= j < i ==> events[j].sequence != e.sequence
  }

  function WindowOutcome(w: Window, e: Envelope): (r: AppendOutcome) {
    if e.sequence < Expected(w) then
      if Holds(w.events, e) then AlreadyPresent else SequenceConflict(e.sequence)
    else if e.sequence > Expected(w) then SequenceGap(Expected(w), e.sequence)
    else Appended
  }

  /** Keeps the newest `maximum` events and remembers the sequence of the last one dropped. */
  function Trim(events: seq<Envelope>, evictedThrough: nat, maximum: nat): (w: Window) {
    var kept := Last(events, maximum);
    Window(kept, if |kept| < |events| then events[|events| - |kept| - 1].sequence else evictedThrough)
  }

  function WindowAfter(w: Window, e: Envelope, maximum: nat): (w': Window) {
    if WindowOutcome(w, e).Appended? then Trim(w.events + [e], w.evictedThrough, maximum) else w
  }

  method FindEvent(events: seq<Envelope>, e: Envelope) returns (found: bool)
    ensures found == Holds(events, e)
  {
    var i := 0;
    while i < |events| && events[i].sequence != e.sequence
      invariant 0 <= i <= |events|
      invariant forall j :: 0 <= j < i ==> events[j].sequence != e.sequence
    {
      i := i + 1;
    }
    found := i < |events| && events[i] == e;
  }

  method AppendToWindow(w: Window, e: Envelope, maximum: nat) returns (w': Window, r: AppendOutcome)
    ensures r == WindowOutcome(w, e)
    ensures w' == WindowAfter(w, e, maximum)
  {
    w' := w;
    var expected := Expected(w);
    if e.sequence < expected {
      var found := FindEvent(w.events, e);
      return w, if found then AlreadyPresent else SequenceConflict(e.sequence);
    }
    if e.sequence > expected {
      return w, SequenceGap(expected, e.sequence);
    }
    var all := w.events + [e];
    var events, evictedThrough := all, w.evictedThrough;
    ghost var k := 0;
    while |events| > maximum
      invariant 0 <= k <= |all| && events == all[k..]
      invariant k > 0 ==> |events| >= maximum && evictedThrough == all[k - 1].sequence
      invariant k == 0 ==> evictedThrough == w.evictedThrough
      decreases |events|
    {
      evictedThrough := events[0].sequence;
      events := events[1..];
      k := k + 1;
    }
    return Window(events, evictedThrough), Appended;
  }

  // ---------------------------------------------------------------------------------------
  // One runtime: windows of the live invocations and the identifiers of the evicted ones.

  datatype RuntimeJournal = RuntimeJournal(
    invocations: map<InvocationId, Window>,
    order: seq<InvocationId>,
    evicted: set<InvocationId>,
    evictedOrder: seq<InvocationId>)

  const EMPTY_RUNTIME: RuntimeJournal := RuntimeJournal(map[], [], {}, [])

  /** Maps and queues agree, and no identifier is queued twice, neither live nor evicted. */
  ghost predicate Agree(rt: RuntimeJournal) {
    && NoDup(rt.evictedOrder + rt.order)
    && rt.invocations.Keys == Elements(rt.order)
    && rt.evicted == Elements(rt.evictedOrder)
  }

  function Insert(rt: RuntimeJournal, id: InvocationId): (r: RuntimeJournal) {
    rt.(invocations := rt.invocations[id := Window([], 0)], order := rt.order + [id])
  }

  /** The oldest live invocation becomes the newest evicted one. */
  function EvictOldest(rt: RuntimeJournal): (r: RuntimeJournal)
    requires rt.order != []
  {
    RuntimeJournal(
      rt.invocations - {rt.order[0]},
      rt.order[1..],
      rt.evicted + {rt.order[0]},
      rt.evictedOrder + [rt.order[0]])
  }

  function EvictExcess(rt: RuntimeJournal, maximum: nat): (r: RuntimeJournal)
    decreases |rt.order|
  {
    if |rt.order| > maximum then EvictExcess(EvictOldest(rt), maximum) else rt
  }

  /** The identifier evicted longest ago is forgotten. */
  function ForgetOldest(rt: RuntimeJournal): (r: RuntimeJournal)
    requires rt.evictedOrder != []
  {
    rt.(evicted := rt.evicted - {rt.evictedOrder[0]}, evictedOrder := rt.evictedOrder[1..])
  }

  function ForgetExcess(rt: RuntimeJournal, maximum: nat): (r: RuntimeJournal)
    decreases |rt.evictedOrder|
  {
    if |rt.evictedOrder| > maximum then ForgetExcess(ForgetOldest(rt), maximum) else rt
  }

  /** Admitting a new invocation, which may push out older ones. */
  function Admit(rt: RuntimeJournal, id: InvocationId, maximum: nat): (r: RuntimeJournal) {
    ForgetExcess(EvictExcess(Insert(rt, id), maximum), maximum)
  }

  function RuntimeOutcome(rt: RuntimeJournal, e: Envelope, maximum: nat): (r: AppendOutcome) {
    if e.invocation in rt.evicted then SequenceConflict(e.sequence)
    else if e.invocation in rt.invocations then WindowOutcome(rt.invocations[e.invocation], e)
    else if e.sequence != 1 then SequenceGap(1, e.sequence)
    else if e.invocation in Admit(rt, e.invocation, maximum).invocations then WindowOutcome(Window([], 0), e)
    else StateInvariant
  }

  function SetWindow(rt: RuntimeJournal, id: InvocationId, w: Window): (r: RuntimeJournal) {
    rt.(invocations := rt.invocations[id := w])
  }

  function RuntimeAfter(rt: RuntimeJournal, e: Envelope, maximum: nat, maxEvents: nat): (r: RuntimeJournal) {
    var id := e.invocation;
    if id in rt.evicted then rt
    else if id in rt.invocations then SetWindow(rt, id, WindowAfter(rt.invocations[id], e, maxEvents))
    else if e.sequence != 1 then rt
    else
      var admitted := Admit(rt, id, maximum);
      if id in admitted.invocations then SetWindow(admitted, id, WindowAfter(Window([], 0), e, maxEvents))
      else admitted
  }

  method AppendToRuntime(rt: RuntimeJournal, e: Envelope, maximum: nat, maxEvents: nat)
    returns (rt': RuntimeJournal, r: AppendOutcome)
    ensures r == RuntimeOutcome(rt, e, maximum)
    ensures rt' == RuntimeAfter(rt, e, maximum, maxEvents)
  {
    var id := e.invocation;
    rt' := rt;
    if id in rt.evicted {
      return rt, SequenceConflict(e.sequence);
    }
    if id !in rt.invocations {
      if e.sequence != 1 {
        return rt, SequenceGap(1, e.sequence);
      }
      rt' := Insert(rt, id);
      while |rt'.order| > maximum
        invariant EvictExcess(rt', maximum) == EvictExcess(Insert(rt, id), maximum)
        decreases |rt'.order|
      {
        rt' := EvictOldest(rt');
      }
      while |rt'.evictedOrder| > maximum
        invariant ForgetExcess(rt', maximum) == Admit(rt, id, maximum)
        decreases |rt'.evictedOrder|
      {
        rt' := ForgetOldest(rt');
      }
      if id !in rt'.invocations {
        return rt', StateInvariant;
      }
      var window;
      window, r := AppendToWindow(Window([], 0), e, maxEvents);
      return SetWindow(rt', id, window), r;
    }
    var window;
    window, r := AppendToWindow(rt.invocations[id], e, maxEvents);
    rt' := SetWindow(rt, id, window);
  }

  // --- the queues stay in step with the maps ---

  lemma InsertAgrees(rt: RuntimeJournal, id: InvocationId)
    requires Agree(rt) && id !in rt.invocations && id !in rt.evicted
    ensures Agree(Insert(rt, id))
  {
    var both := rt.evictedOrder + rt.order;
    assert id !in both;
    ElementsOfPush(both, id);
    ElementsOfPush(rt.order, id);
    assert rt.evictedOrder + (rt.order + [id]) == both + [id];
  }

  lemma EvictOldestAgrees(rt: RuntimeJournal)
    requires Agree(rt) && rt.order != []
    ensures Agree(EvictOldest(rt))
    ensures EvictOldest(rt).evictedOrder + EvictOldest(rt).order == rt.evictedOrder + rt.order
  {
    PartsNoDup(rt.evictedOrder, rt.order);
    ElementsOfTail(rt.order);
    ElementsOfPush(rt.evictedOrder, rt.order[0]);
    assert EvictOldest(rt).evictedOrder + EvictOldest(rt).order == rt.evictedOrder + rt.order;
  }

  lemma PartsNoDup<T>(a: seq<T>, b: seq<T>)
    requires NoDup(a + b)
    ensures NoDup(a) && NoDup(b)
    ensures forall x :: x in a ==> x !in b
  {
    var s := a + b;
    assert forall i :: 0 <= i < |a| ==> s[i] == a[i];
    assert forall j :: 0 <= j < |b| ==> s[|a| + j] == b[j];
  }

  lemma ForgetOldestAgrees(rt: RuntimeJournal)
    requires Agree(rt) && rt.evictedOrder != []
    ensures Agree(ForgetOldest(rt))
    ensures ForgetOldest(rt).evictedOrder + rt.order == (rt.evictedOrder + rt.order)[1..]
  {
    PartsNoDup(rt.evictedOrder, rt.order);
    ElementsOfTail(rt.evictedOrder);
    ElementsOfTail(rt.evictedOrder + rt.order);
    assert rt.evictedOrder[1..] + rt.order == (rt.evictedOrder + rt.order)[1..];
  }

  /** Eviction moves the oldest live identifiers over, keeping the joint queue as it is. */
  lemma {:induction false} EvictExcessMoves(rt: RuntimeJournal, maximum: nat)
    requires Agree(rt)
    ensures var r := EvictExcess(rt, maximum);
            && Agree(r)
            && r.evictedOrder + r.order == rt.evictedOrder + rt.order
            && |r.order| == (if |rt.order| > maximum then maximum else |rt.order|)
    ensures forall id :: id in EvictExcess(rt, maximum).invocations ==>
              id in rt.invocations && EvictExcess(rt, maximum).invocations[id] == rt.invocations[id]
    decreases |rt.order|
  {
    if |rt.order| > maximum {
      EvictOldestAgrees(rt);
      EvictExcessMoves(EvictOldest(rt), maximum);
    }
  }

  /** Forgetting drops the oldest evicted identifiers from the joint queue and touches no window. */
  lemma {:induction false} ForgetExcessDrops(rt: RuntimeJournal, maximum: nat)
    requires Agree(rt)
    ensures var r := ForgetExcess(rt, maximum);
            && Agree(r)
            && r.order == rt.order && r.invocations == rt.invocations
            && |r.evictedOrder| == (if |rt.evictedOrder| > maximum then maximum else |rt.evictedOrder|)
            && r.evictedOrder == rt.evictedOrder[|rt.evictedOrder| - |r.evictedOrder|..]
    decreases |rt.evictedOrder|
  {
    if |rt.evictedOrder| > maximum {
      ForgetOldestAgrees(rt);
      ForgetExcessDrops(ForgetOldest(rt), maximum);
    }
  }

  // ---------------------------------------------------------------------------------------
  // The whole journal: a bounded number of runtimes.

  datatype State = State(runtimes: map<RuntimeId, RuntimeJournal>, order: seq<RuntimeId>)

  ghost predicate StateOk(s: State) {
    NoDup(s.order) && s.runtimes.Keys == Elements(s.order)
  }

  function DropOldestRuntime(s: State): (r: State)
    requires s.order != []
  {
    State(s.runtimes - {s.order[0]}, s.order[1..])
  }

  function DropExcessRuntimes(s: State, maximum: nat): (r: State)
    decreases |s.order|
  {
    if |s.order| > maximum then DropExcessRuntimes(DropOldestRuntime(s), maximum) else s
  }

  /** Makes sure the runtime is registered, which may push out the oldest ones. */
  function Registered(s: State, id: RuntimeId, maximum: nat): (r: State) {
    if id in s.runtimes then s
    else DropExcessRuntimes(State(s.runtimes[id := EMPTY_RUNTIME], s.order + [id]), maximum)
  }

  function Outcome(s: State, e: Envelope, limits: Limits): (r: AppendOutcome) {
    if e.schemaVersion != 1 then UnsupportedSchema(e.schemaVersion)
    else
      var registered := Registered(s, e.runtime, limits.maxRuntimes);
      if e.runtime !in registered.runtimes then StateInvariant
      else RuntimeOutcome(registered.runtimes[e.runtime], e, limits.maxInvocations)
  }

  function After(s: State, e: Envelope, limits: Limits): (r: State) {
    if e.schemaVersion != 1 then s
    else
      var registered := Registered(s, e.runtime, limits.maxRuntimes);
      if e.runtime !in registered.runtimes then registered
      else
        registered.(runtimes := registered.runtimes[
          e.runtime := RuntimeAfter(registered.runtimes[e.runtime], e, limits.maxInvocations, limits.maxEvents)])
  }

  function Without(s: seq<RuntimeId>, x: RuntimeId): (r: seq<RuntimeId>)
    decreases |s|
  {
    if s == [] then [] else (if s[0] == x then [] else [s[0]]) + Without(s[1..], x)
  }

  function AfterRemove(s: State, id: RuntimeId): (r: State) {
    State(s.runtimes - {id}, Without(s.order, id))
  }

  lemma RegisterNewOk(s: State, id: RuntimeId)
    requires StateOk(s) && id !in s.runtimes
    ensures StateOk(State(s.runtimes[id := EMPTY_RUNTIME], s.order + [id]))
  {
    assert id !in Elements(s.order);
    ElementsOfPush(s.order, id);
  }

  lemma DropOldestOk(s: State)
    requires StateOk(s) && s.order != []
    ensures StateOk(DropOldestRuntime(s))
    ensures forall id :: id in DropOldestRuntime(s).runtimes ==> id in s.runtimes && DropOldestRuntime(s).runtimes[id] == s.runtimes[id]
  {
    ElementsOfTail(s.order);
  }

  lemma TailOfRest<T>(window: seq<T>, s: seq<T>, n: nat)
    requires |s| > n && IsTail(window, s[1..], n)
    ensures IsTail(window, s, n)
  {
  }

  /** Only the oldest runtimes go, and those that stay are untouched. */
  lemma {:induction false} DropExcessKeeps(s: State, maximum: nat)
    requires StateOk(s)
    ensures var r := DropExcessRuntimes(s, maximum);
            && StateOk(r)
            && IsTail(r.order, s.order, maximum)
            && (forall id :: id in r.runtimes ==> id in s.runtimes && r.runtimes[id] == s.runtimes[id])
    decreases |s.order|
  {
    if |s.order| > maximum {
      DropOldestOk(s);
      DropExcessKeeps(DropOldestRuntime(s), maximum);
      hide StateOk;
      TailOfRest(DropExcessRuntimes(s, maximum).order, s.order, maximum);
    }
  }

  /** With room for at least one runtime, the newcomer is registered and starts empty; every other
      runtime that is still there is as it was. */
  lemma RegisteredHolds(s: State, id: RuntimeId, maximum: nat)
    requires StateOk(s) && maximum > 0
    ensures var r := Registered(s, id, maximum);
            && StateOk(r) && id in r.runtimes
            && (id in s.runtimes ==> r == s)
            && (id !in s.runtimes ==> r.runtimes[id] == EMPTY_RUNTIME)
            && (forall other :: other in r.runtimes && other != id ==>
                  other in s.runtimes && r.runtimes[other] == s.runtimes[other])
  {
    if id !in s.runtimes {
      RegisterNewOk(s, id);
      var inserted := State(s.runtimes[id := EMPTY_RUNTIME], s.order + [id]);
      DropExcessKeeps(inserted, maximum);
      var r := DropExcessRuntimes(inserted, maximum);
      assert r.order[|r.order| - 1] == id;
    }
  }

  lemma {:induction false} WithoutRemoves(s: seq<RuntimeId>, x: RuntimeId)
    requires NoDup(s)
    ensures NoDup(Without(s, x)) && Elements(Without(s, x)) == Elements(s) - {x}
    decreases |s|
  {
    if s != [] {
      ElementsOfTail(s);
      WithoutRemoves(s[1..], x);
      var rest := Without(s[1..], x);
      assert s[0] !in Elements(rest);
      assert Elements([s[0]] + rest) == {s[0]} + Elements(rest);
      assert Elements(s) == {s[0]} + Elements(s[1..]);
    }
  }

  lemma {:induction false} WithoutAbsent(s: seq<RuntimeId>, x: RuntimeId)
    requires x !in s
    ensures Without(s, x) == s
    decreases |s|
  {
    if s != [] {
      WithoutAbsent(s[1..], x);
    }
  }

  /** Removal takes out that one runtime and leaves the others in their order. */
  lemma {:induction false} WithoutKeepsOrder(s: seq<RuntimeId>, i: nat)
    requires NoDup(s) && i < |s|
    ensures Without(s, s[i]) == s[..i] + s[i + 1..]
    decreases |s|
  {
    if i == 0 {
      WithoutAbsent(s[1..], s[0]);
      assert s[..0] + s[1..] == s[1..];
    } else {
      WithoutKeepsOrder(s[1..], i - 1);
      assert s[1..][..i - 1] == s[1..i] && s[1..][i..] == s[i + 1..];
      assert [s[0]] + (s[1..i] + s[i + 1..]) == s[..i] + s[i + 1..];
    }
  }
}
