/** The event sink of one invocation and the run that drives it. */
module EventSink {
  import opened Basics
  import opened Events

  const SINK_FAILURE: Failure := 0

  datatype TurnOutcome = Succeeded(result: TurnResult) | Failed(failure: Failure)

  // ---------------------------------------------------------------------------------------
  // What passes through the sink.

  /** A repeated start of a compaction that is already open is swallowed. */
  predicate Passes(open: Option<CompactionTrigger>, e: TurnEvent) {
    !(e.CompactionStarted? && open.Some?)
  }

  function OpenNext(open: Option<CompactionTrigger>, e: TurnEvent): (r: Option<CompactionTrigger>) {
    match e
    case CompactionStarted(trigger) => if open.Some? then open else Some(trigger)
    case CompactionCompleted(_) => None
    case CompactionFailed(_) => None
    case _ => open
  }

  function Forwarded(open: Option<CompactionTrigger>, events: seq<TurnEvent>): (r: seq<RuntimeEvent>)
    decreases |events|
  {
    if events == [] then []
    else
      (if Passes(open, events[0]) then [ProviderEvent(events[0])] else [])
        + Forwarded(OpenNext(open, events[0]), events[1..])
  }

  function OpenAtEnd(open: Option<CompactionTrigger>, events: seq<TurnEvent>): (r: Option<CompactionTrigger>)
    decreases |events|
  {
    if events == [] then open else OpenAtEnd(OpenNext(open, events[0]), events[1..])
  }

  function LastSession(announced: Option<SessionId>, events: seq<TurnEvent>): (r: Option<SessionId>)
    decreases |events|
  {
    if events == [] then announced
    else LastSession(if events[0].SessionStarted? then Some(events[0].session) else announced, events[1..])
  }

  function Terminal(outcome: TurnOutcome): (e: RuntimeEvent) {
    match outcome
    case Succeeded(result) => InvocationCompleted(result)
    case Failed(failure) => InvocationFailed(failure)
  }

  function Closing(open: Option<CompactionTrigger>): (r: seq<RuntimeEvent>) {
    if open.Some? then [ProviderEvent(CompactionFailed(open.value))] else []
  }

  /** Everything an invocation emits after its prologue left compaction state `open`. */
  function Rest(open: Option<CompactionTrigger>, events: seq<TurnEvent>, outcome: TurnOutcome): (r: seq<RuntimeEvent>) {
    Forwarded(open, events) + Closing(OpenAtEnd(open, events)) + [Terminal(outcome)]
  }

  function Prologue(kind: Kind): (r: seq<RuntimeEvent>) {
    [InvocationStarted] + (if kind == ManualCompaction then [ProviderEvent(CompactionStarted(Manual))] else [])
  }

  function OpenAfterPrologue(kind: Kind): (r: Option<CompactionTrigger>) {
    if kind == ManualCompaction then Some(Manual) else None
  }

  /** The receiver is dropped after taking `taken` events, or never. */
  predicate Delivered(taken: Option<nat>, sequence: nat) {
    taken.None? || sequence <= taken.value
  }

  /** Both prologue events reached the receiver, so the executor is run. */
  predicate Started(kind: Kind, taken: Option<nat>) {
    Delivered(taken, |Prologue(kind)|)
  }

  /** The events an invocation tries to send, when its executor emits `events` and yields `outcome`.
      If the prologue cannot be sent the executor is not run. */
  function Attempts(kind: Kind, events: seq<TurnEvent>, outcome: TurnOutcome, taken: Option<nat>): (r: seq<RuntimeEvent>) {
    if Started(kind, taken) then Prologue(kind) + Rest(OpenAfterPrologue(kind), events, outcome)
    else if Delivered(taken, 1) then Prologue(kind) + Rest(OpenAfterPrologue(kind), [], Failed(SINK_FAILURE))
    else [InvocationStarted] + Rest(None, [], Failed(SINK_FAILURE))
  }

  function FinalOutcome(kind: Kind, events: seq<TurnEvent>, outcome: TurnOutcome, taken: Option<nat>): (r: TurnOutcome) {
    if !Started(kind, taken) then Failed(SINK_FAILURE)
    else if outcome.Succeeded? && !Delivered(taken, |Attempts(kind, events, outcome, taken)|) then Failed(SINK_FAILURE)
    else outcome
  }

  function SessionReported(kind: Kind, events: seq<TurnEvent>, outcome: TurnOutcome, taken: Option<nat>): (r: Option<SessionId>) {
    if !Started(kind, taken) then None
    else if outcome.Succeeded? && outcome.result.session.Some? then outcome.result.session
    else LastSession(None, events)
  }

  // ---------------------------------------------------------------------------------------
  // The sink itself.

  /** What the receiver holds: the first attempts, numbered from 1 without gaps. */
  ghost predicate Received(channel: seq<Envelope>, attempted: seq<RuntimeEvent>, taken: Option<nat>, runtime: RuntimeId, invocation: InvocationId) {
    && |channel| == (if Delivered(taken, |attempted|) then |attempted| else taken.value)
    && forall k :: 0 <= k < |channel| ==>
         && channel[k].schemaVersion == 1 && channel[k].runtime == runtime && channel[k].invocation == invocation
         && channel[k].sequence == k + 1
         && channel[k].event == attempted[k]
  }

  class ChannelEventSink {
    const runtime: RuntimeId
    const invocation: InvocationId
    const taken: Option<nat>
    var sequence: nat
    var announced: Option<SessionId>
    var compactionOpen: Option<CompactionTrigger>
    var channel: seq<Envelope>
    ghost var attempted: seq<RuntimeEvent>    // everything offered to the channel so far

    ghost predicate Valid() reads this {
      sequence == |attempted| && Received(channel, attempted, taken, runtime, invocation)
    }

    constructor (runtime: RuntimeId, invocation: InvocationId, taken: Option<nat>)
      ensures Valid() && attempted == [] && announced == None && compactionOpen == None
      ensures this.runtime == runtime && this.invocation == invocation && this.taken == taken
    {
      this.runtime, this.invocation, this.taken := runtime, invocation, taken;
      sequence, announced, compactionOpen, channel := 0, None, None, [];
      attempted := [];
    }

    method EmitRuntime(event: RuntimeEvent, now: nat) returns (ok: bool)
      requires Valid()
      modifies this`sequence, this`channel, this`attempted
      ensures Valid() && attempted == old(attempted) + [event]
      ensures ok == Delivered(taken, |attempted|)
    {
      sequence := sequence + 1;
      var envelope := Envelope(1, runtime, invocation, sequence, now, event);
      attempted := attempted + [event];
      ok := taken.None? || sequence <= taken.value;
      if ok {
        channel := channel + [envelope];
      }
    }

    method Emit(event: TurnEvent, now: nat) returns (ok: bool)
      requires Valid()
      modifies this
      ensures Valid()
      ensures attempted == old(attempted) + (if Passes(old(compactionOpen), event) then [ProviderEvent(event)] else [])
      ensures compactionOpen == OpenNext(old(compactionOpen), event)
      ensures announced == if event.SessionStarted? then Some(event.session) else old(announced)
      ensures ok <==> !Passes(old(compactionOpen), event) || Delivered(taken, |attempted|)
    {
      ok := true;
      match event {
        case SessionStarted(session) =>
          announced := Some(session);
        case CompactionStarted(trigger) =>
          if compactionOpen.Some? {
            return;
          }
          compactionOpen := Some(trigger);
        case CompactionCompleted(_) =>
          compactionOpen := None;
        case CompactionFailed(_) =>
          compactionOpen := None;
        case OtherTurnEvent(_) =>
      }
      ok := EmitRuntime(ProviderEvent(event), now);
    }

    method CloseOpenCompaction(now: nat) returns (ok: bool)
      requires Valid()
      modifies this
      ensures Valid() && announced == old(announced) && compactionOpen == None
      ensures attempted == old(attempted) + Closing(old(compactionOpen))
    {
      var trigger := compactionOpen;
      compactionOpen := None;
      ok := true;
      if trigger.Some? {
        ok := EmitRuntime(ProviderEvent(CompactionFailed(trigger.value)), now);
      }
    }
  }

  /** The executor: it emits these events one after the other, whatever each send returns. */
  method Execute(sink: ChannelEventSink, events: seq<TurnEvent>, clock: nat -> nat)
    requires sink.Valid()
    modifies sink
    ensures sink.Valid()
    ensures sink.attempted == old(sink.attempted) + Forwarded(old(sink.compactionOpen), events)
    ensures sink.compactionOpen == OpenAtEnd(old(sink.compactionOpen), events)
    ensures sink.announced == LastSession(old(sink.announced), events)
  {
    ghost var before, open, announced := sink.attempted, sink.compactionOpen, sink.announced;
    var i := 0;
    while i < |events|
      invariant 0 <= i <= |events|
      invariant sink.Valid()
      invariant before + Forwarded(open, events) == sink.attempted + Forwarded(sink.compactionOpen, events[i..])
      invariant OpenAtEnd(open, events) == OpenAtEnd(sink.compactionOpen, events[i..])
      invariant LastSession(announced, events) == LastSession(sink.announced, events[i..])
    {
      var ok := sink.Emit(events[i], clock(i));
      assert events[i..][1..] == events[i + 1..];
      i := i + 1;
    }
  }

  /** The first events of a turn; false when one of them could not be sent. */
  method Announce(sink: ChannelEventSink, kind: Kind, clock: nat -> nat) returns (started: bool)
    requires sink.Valid() && sink.attempted == [] && sink.announced == None && sink.compactionOpen == None
    modifies sink
    ensures sink.Valid() && sink.announced == None
    ensures started == Started(kind, sink.taken)
    ensures sink.attempted == if Delivered(sink.taken, 1) then Prologue(kind) else [InvocationStarted]
    ensures sink.compactionOpen == if Delivered(sink.taken, 1) then OpenAfterPrologue(kind) else None
  {
    started := sink.EmitRuntime(InvocationStarted, clock(0));
    if started && kind == ManualCompaction {
      started := sink.Emit(CompactionStarted(Manual), clock(1));
    }
  }

  /** Closes what is open and sends the terminal event; a success nobody could be told of fails. */
  method Conclude(sink: ChannelEventSink, outcome: TurnOutcome, clock: nat -> nat) returns (final: TurnOutcome)
    requires sink.Valid()
    modifies sink
    ensures sink.Valid() && sink.announced == old(sink.announced)
    ensures sink.attempted == old(sink.attempted) + Closing(old(sink.compactionOpen)) + [Terminal(outcome)]
    ensures final == if outcome.Succeeded? && !Delivered(sink.taken, |sink.attempted|) then Failed(SINK_FAILURE) else outcome
  {
    var closed := sink.CloseOpenCompaction(clock(2));
    var delivered := sink.EmitRuntime(Terminal(outcome), clock(3));
    final := if !delivered && outcome.Succeeded? then Failed(SINK_FAILURE) else outcome;
  }

  /** The spawned task of an admitted turn, from its first event to its result. */
  method RunInvocation(sink: ChannelEventSink, kind: Kind, events: seq<TurnEvent>, outcome: TurnOutcome, clock: nat -> nat)
    returns (final: TurnOutcome, session: Option<SessionId>)
    requires sink.Valid() && sink.attempted == [] && sink.announced == None && sink.compactionOpen == None
    modifies sink
    ensures sink.Valid()
    ensures sink.attempted == Attempts(kind, events, outcome, sink.taken)
    ensures final == FinalOutcome(kind, events, outcome, sink.taken)
    ensures session == SessionReported(kind, events, outcome, sink.taken)
  {
    var started := Announce(sink, kind, clock);
    ghost var prologue := sink.attempted;
    var result := Failed(SINK_FAILURE);
    if started {
      Execute(sink, events, clock);
      result := outcome;
    }
    session := if result.Succeeded? && result.result.session.Some? then result.result.session else sink.announced;
    final := Conclude(sink, result, clock);
    assert sink.attempted == prologue
      + Rest(if Delivered(sink.taken, 1) then OpenAfterPrologue(kind) else None, if started then events else [], result);
  }

  // ---------------------------------------------------------------------------------------
  // What every stream looks like.

  predicate Starts(e: RuntimeEvent) {
    e.ProviderEvent? && e.event.CompactionStarted?
  }

  predicate Closes(e: RuntimeEvent) {
    e.ProviderEvent? && (e.event.CompactionCompleted? || e.event.CompactionFailed?)
  }

  /** Whether a compaction is open after these events. */
  predicate OpenAfter(s: seq<RuntimeEvent>) {
    if s == [] then false
    else if Starts(s[|s| - 1]) then true
    else if Closes(s[|s| - 1]) then false
    else OpenAfter(s[..|s| - 1])
  }

  /** Event `i` does not start a compaction while one is open. */
  predicate StartOk(s: seq<RuntimeEvent>, i: nat)
    requires i < |s|
  {
    Starts(s[i]) ==> !OpenAfter(s[..i])
  }

  ghost predicate Alternates(s: seq<RuntimeEvent>) {
    forall i :: 0 <= i < |s| ==> StartOk(s, i)
  }

  ghost predicate ClosedBetween(s: seq<RuntimeEvent>, i: int, j: int) {
    exists k :: i < k < j && 0 <= k < |s| && Closes(s[k])
  }

  /** A started compaction that is no longer open was closed in between. */
  lemma {:induction false} ClosedMeansClosing(s: seq<RuntimeEvent>, i: nat)
    requires i < |s| && Starts(s[i]) && !OpenAfter(s)
    ensures ClosedBetween(s, i, |s|)
    decreases |s|
  {
    var last := |s| - 1;
    if !Closes(s[last]) {
      ClosedMeansClosing(s[..last], i);
      var k :| i < k < last && 0 <= k < |s[..last]| && Closes(s[..last][k]);
      assert Closes(s[k]);
    }
  }

  lemma AlternatesPush(s: seq<RuntimeEvent>, e: RuntimeEvent)
    requires Alternates(s) && (Starts(e) ==> !OpenAfter(s))
    ensures Alternates(s + [e])
    ensures OpenAfter(s + [e]) == (if Starts(e) then true else if Closes(e) then false else OpenAfter(s))
  {
    var s' := s + [e];
    assert s'[..|s|] == s;
    forall i | 0 <= i < |s'|
      ensures StartOk(s', i)
    {
      assert s'[..i] == s[..i];
      if i < |s| {
        assert StartOk(s, i);
      }
    }
  }

  /** Forwarding tracks the open compaction faithfully. */
  lemma {:induction false} ForwardedAlternates(before: seq<RuntimeEvent>, open: Option<CompactionTrigger>, events: seq<TurnEvent>)
    requires Alternates(before) && OpenAfter(before) == open.Some?
    ensures Alternates(before + Forwarded(open, events))
    ensures OpenAfter(before + Forwarded(open, events)) == OpenAtEnd(open, events).Some?
    decreases |events|
  {
    if events == [] {
      assert before + [] == before;
    } else if Passes(open, events[0]) {
      var next := before + [ProviderEvent(events[0])];
      AlternatesPush(before, ProviderEvent(events[0]));
      ForwardedAlternates(next, OpenNext(open, events[0]), events[1..]);
      assert before + Forwarded(open, events) == next + Forwarded(OpenNext(open, events[0]), events[1..]);
    } else {
      ForwardedAlternates(before, open, events[1..]);
      assert Forwarded(open, events) == Forwarded(open, events[1..]);
    }
  }

  lemma RestAlternates(before: seq<RuntimeEvent>, open: Option<CompactionTrigger>, events: seq<TurnEvent>, outcome: TurnOutcome)
    requires Alternates(before) && OpenAfter(before) == open.Some?
    ensures Alternates(before + Rest(open, events, outcome))
    ensures !OpenAfter(before + Rest(open, events, outcome))
  {
    ForwardedAlternates(before, open, events);
    var forwarded := before + Forwarded(open, events);
    var closed := forwarded + Closing(OpenAtEnd(open, events));
    if OpenAtEnd(open, events).Some? {
      AlternatesPush(forwarded, Closing(OpenAtEnd(open, events))[0]);
    } else {
      assert closed == forwarded;
    }
    AlternatesPush(closed, Terminal(outcome));
    assert before + Rest(open, events, outcome) == closed + [Terminal(outcome)];
  }

  lemma NothingAlternates()
    ensures Alternates([]) && !OpenAfter([])
  {
  }

  lemma PrologueAlternates(kind: Kind)
    ensures Alternates(Prologue(kind)) && OpenAfter(Prologue(kind)) == OpenAfterPrologue(kind).Some?
    ensures Alternates([InvocationStarted]) && !OpenAfter([InvocationStarted])
  {
    hide Alternates;
    hide OpenAfter;
    NothingAlternates();
    AlternatesPush([], InvocationStarted);
    assert [] + [InvocationStarted] == [InvocationStarted];
    if kind == ManualCompaction {
      var start := ProviderEvent(CompactionStarted(Manual));
      AlternatesPush([InvocationStarted], start);
      assert [InvocationStarted] + [start] == Prologue(kind);
    } else {
      assert Prologue(kind) == [InvocationStarted];
    }
  }

  /** The complete stream of an invocation. */
  ghost predicate WellFormed(s: seq<RuntimeEvent>) {
    && s != [] && s[0] == InvocationStarted
    // exactly one terminal event, and it is the last
    && (forall i :: 0 <= i < |s| ==> (IsTerminal(s[i]) <==> i == |s| - 1))
    // never two starts without a completion or failure in between
    && (forall i, j :: 0 <= i < j < |s| && Starts(s[i]) && Starts(s[j]) ==> ClosedBetween(s, i, j))
    // every started compaction is closed before the terminal event
    && (forall i :: 0 <= i < |s| && Starts(s[i]) ==> ClosedBetween(s, i, |s| - 1))
  }

  lemma {:induction false} ForwardedIsProvider(open: Option<CompactionTrigger>, events: seq<TurnEvent>)
    ensures forall i :: 0 <= i < |Forwarded(open, events)| ==> Forwarded(open, events)[i].ProviderEvent?
    decreases |events|
  {
    if events != [] {
      ForwardedIsProvider(OpenNext(open, events[0]), events[1..]);
    }
  }

  /** Every invocation's stream is well formed, whatever its executor emits or returns. */
  lemma AttemptsWellFormed(kind: Kind, events: seq<TurnEvent>, outcome: TurnOutcome, taken: Option<nat>)
    ensures WellFormed(Attempts(kind, events, outcome, taken))
  {
    PrologueAlternates(kind);
    if Started(kind, taken) {
      StreamWellFormed(Prologue(kind), OpenAfterPrologue(kind), events, outcome);
    } else if Delivered(taken, 1) {
      StreamWellFormed(Prologue(kind), OpenAfterPrologue(kind), [], Failed(SINK_FAILURE));
    } else {
      StreamWellFormed([InvocationStarted], None, [], Failed(SINK_FAILURE));
    }
  }

  lemma StreamWellFormed(before: seq<RuntimeEvent>, open: Option<CompactionTrigger>, events: seq<TurnEvent>, outcome: TurnOutcome)
    requires before != [] && before[0] == InvocationStarted
    requires forall i :: 0 <= i < |before| ==> !IsTerminal(before[i])
    requires Alternates(before) && OpenAfter(before) == open.Some?
    ensures WellFormed(before + Rest(open, events, outcome))
  {
    var s := before + Rest(open, events, outcome);
    RestAlternates(before, open, events, outcome);
    ForwardedIsProvider(open, events);
    forall i, j | 0 <= i < j < |s| && Starts(s[i]) && Starts(s[j])
      ensures ClosedBetween(s, i, j)
    {
      assert StartOk(s, j);
      ClosedInPrefix(s, i, j);
    }
    forall i | 0 <= i < |s| && Starts(s[i])
      ensures ClosedBetween(s, i, |s| - 1)
    {
      ClosedMeansClosing(s, i);
      var k :| i < k < |s| && 0 <= k < |s| && Closes(s[k]);
      assert k != |s| - 1;
    }
  }

  lemma ClosedInPrefix(s: seq<RuntimeEvent>, i: nat, j: nat)
    requires i < j <= |s| && Starts(s[i]) && !OpenAfter(s[..j])
    ensures ClosedBetween(s, i, j)
  {
    ClosedMeansClosing(s[..j], i);
    var k :| i < k < j && 0 <= k < |s[..j]| && Closes(s[..j][k]);
    assert Closes(s[k]);
  }

  /** A turn that ends in success has delivered its whole stream, and that stream ends in the
      completion carrying the same result. */
  lemma SuccessWasDelivered(channel: seq<Envelope>, kind: Kind, events: seq<TurnEvent>, outcome: TurnOutcome, taken: Option<nat>, runtime: RuntimeId, invocation: InvocationId)
    requires Received(channel, Attempts(kind, events, outcome, taken), taken, runtime, invocation)
    requires FinalOutcome(kind, events, outcome, taken).Succeeded?
    ensures |channel| == |Attempts(kind, events, outcome, taken)| > 0
    ensures channel[|channel| - 1].event == InvocationCompleted(FinalOutcome(kind, events, outcome, taken).result)
  {
    var s := Attempts(kind, events, outcome, taken);
    assert s[|s| - 1] == Terminal(outcome);
  }
}
