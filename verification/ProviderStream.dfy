/** What becomes of an executor's events, session and outcome on the way through the sink. */
module ProviderStream {
  import opened Basics
  import opened Events
  import opened EventSink

  // --- which events come through ---

  predicate Ends(e: TurnEvent) {
    e.CompactionCompleted? || e.CompactionFailed?
  }

  ghost predicate NoneEnds(events: seq<TurnEvent>, from: int, till: int) {
    forall k :: from <= k < till && 0 <= k < |events| ==> !Ends(events[k])
  }

  /** A compaction is open before event `i`: it was open at the outset or has started, and none has ended since. */
  ghost predicate OpenBefore(open: bool, events: seq<TurnEvent>, i: nat) {
    || (open && NoneEnds(events, 0, i))
    || exists j :: 0 <= j < i && j < |events| && events[j].CompactionStarted? && NoneEnds(events, j, i)
  }

  lemma {:induction false} OpenAtEndNext(open: Option<CompactionTrigger>, events: seq<TurnEvent>, e: TurnEvent)
    ensures OpenAtEnd(open, events + [e]) == OpenNext(OpenAtEnd(open, events), e)
    decreases |events|
  {
    assert (events + [e])[1..] == if events == [] then [] else events[1..] + [e];
    if events != [] {
      OpenAtEndNext(OpenNext(open, events[0]), events[1..], e);
    }
  }

  lemma {:induction false} ForwardedPush(open: Option<CompactionTrigger>, events: seq<TurnEvent>, e: TurnEvent)
    ensures Forwarded(open, events + [e]) ==
              Forwarded(open, events) + if Passes(OpenAtEnd(open, events), e) then [ProviderEvent(e)] else []
    decreases |events|
  {
    assert (events + [e])[1..] == if events == [] then [] else events[1..] + [e];
    if events != [] {
      ForwardedPush(OpenNext(open, events[0]), events[1..], e);
    }
  }

  lemma OpenBeforeNext(open: bool, events: seq<TurnEvent>, i: nat)
    requires i < |events|
    ensures OpenBefore(open, events, i + 1) <==>
              events[i].CompactionStarted? || (!Ends(events[i]) && OpenBefore(open, events, i))
  {
    if events[i].CompactionStarted? {
      assert NoneEnds(events, i, i + 1);
    }
  }

  lemma {:induction false} OpenMeaning(open: Option<CompactionTrigger>, events: seq<TurnEvent>, i: nat)
    requires i <= |events|
    ensures OpenAtEnd(open, events[..i]).Some? <==> OpenBefore(open.Some?, events, i)
  {
    if i == 0 {
      assert NoneEnds(events, 0, 0);
    } else {
      OpenMeaning(open, events, i - 1);
      OpenBeforeNext(open.Some?, events, i - 1);
      OpenAtEndNext(open, events[..i - 1], events[i - 1]);
      assert events[..i] == events[..i - 1] + [events[i - 1]];
    }
  }

  /** Event by event: each comes through, in its place, unless it starts a compaction while one is open. */
  lemma ForwardedNext(open: Option<CompactionTrigger>, events: seq<TurnEvent>, i: nat)
    requires i < |events|
    ensures Forwarded(open, events[..i + 1]) == Forwarded(open, events[..i]) +
              if events[i].CompactionStarted? && OpenBefore(open.Some?, events, i) then [] else [ProviderEvent(events[i])]
  {
    OpenMeaning(open, events, i);
    ForwardedPush(open, events[..i], events[i]);
    assert events[..i + 1] == events[..i] + [events[i]];
  }

  /** The executor's events that do not start a compaction. */
  function Others(events: seq<TurnEvent>): (r: seq<TurnEvent>) {
    if events == [] then []
    else Others(events[..|events| - 1]) + if events[|events| - 1].CompactionStarted? then [] else [events[|events| - 1]]
  }

  function OthersSeen(s: seq<RuntimeEvent>): (r: seq<TurnEvent>) {
    if s == [] then []
    else
      var e := s[|s| - 1];
      OthersSeen(s[..|s| - 1]) + if e.ProviderEvent? && !e.event.CompactionStarted? then [e.event] else []
  }

  lemma SeenPush(s: seq<RuntimeEvent>, e: RuntimeEvent)
    ensures OthersSeen(s + [e]) == OthersSeen(s) + if e.ProviderEvent? && !e.event.CompactionStarted? then [e.event] else []
  {
    assert (s + [e])[..|s|] == s;
  }

  lemma SeenNext(before: seq<RuntimeEvent>, forwarded: seq<RuntimeEvent>, e: TurnEvent, others: seq<TurnEvent>, dropped: bool)
    requires OthersSeen(before + forwarded) == others && (dropped ==> e.CompactionStarted?)
    ensures OthersSeen(before + (forwarded + if dropped then [] else [ProviderEvent(e)])) ==
              others + if e.CompactionStarted? then [] else [e]
  {
    if dropped {
      assert forwarded + [] == forwarded && others + [] == others;
    } else {
      SeenPush(before + forwarded, ProviderEvent(e));
      assert before + (forwarded + [ProviderEvent(e)]) == before + forwarded + [ProviderEvent(e)];
    }
  }

  /** Whatever the executor emits, every event of it that does not start a compaction is seen, once and in order. */
  lemma {:induction false} OnlyStartsAreDropped(before: seq<RuntimeEvent>, open: Option<CompactionTrigger>, events: seq<TurnEvent>)
    ensures OthersSeen(before + Forwarded(open, events)) == OthersSeen(before) + Others(events)
    decreases |events|
  {
    hide OthersSeen;
    if events == [] {
      assert before + [] == before;
      assert OthersSeen(before) + [] == OthersSeen(before);
    } else {
      var n := |events| - 1;
      OnlyStartsAreDropped(before, open, events[..n]);
      assert events[..n + 1] == events;
      ForwardedNext(open, events, n);
      hide OpenBefore;
      hide Forwarded;
      var dropped := events[n].CompactionStarted? && OpenBefore(open.Some?, events, n);
      SeenNext(before, Forwarded(open, events[..n]), events[n], OthersSeen(before) + Others(events[..n]), dropped);
      assert OthersSeen(before) + (Others(events[..n]) + if events[n].CompactionStarted? then [] else [events[n]]) ==
        OthersSeen(before) + Others(events[..n]) + if events[n].CompactionStarted? then [] else [events[n]];
    }
  }

  // --- how the stream closes ---

  /** The trigger of the last start in a stream. */
  function LastStart(s: seq<RuntimeEvent>): (r: Option<CompactionTrigger>) {
    if s == [] then None
    else if Starts(s[|s| - 1]) then Some(s[|s| - 1].event.trigger)
    else LastStart(s[..|s| - 1])
  }

  /** An open compaction is the one started last. */
  lemma {:induction false} OpenIsLastStart(before: seq<RuntimeEvent>, open: Option<CompactionTrigger>, events: seq<TurnEvent>)
    requires open.Some? ==> LastStart(before) == open
    ensures OpenAtEnd(open, events).Some? ==> LastStart(before + Forwarded(open, events)) == OpenAtEnd(open, events)
    decreases |events|
  {
    if events == [] {
      assert before + [] == before;
    } else {
      var most, e := events[..|events| - 1], events[|events| - 1];
      assert events == most + [e];
      OpenIsLastStart(before, open, most);
      OpenAtEndNext(open, most, e);
      ForwardedPush(open, most, e);
      var s := before + Forwarded(open, most);
      assert (s + [ProviderEvent(e)])[..|s|] == s;
      assert before + (Forwarded(open, most) + [ProviderEvent(e)]) == s + [ProviderEvent(e)];
      assert before + (Forwarded(open, most) + []) == s;
    }
  }

  /** What the runtime announces before the executor runs. */
  function Opening(kind: Kind): (s: seq<RuntimeEvent>) {
    match kind
    case ManualCompaction => [InvocationStarted, ProviderEvent(CompactionStarted(Manual))]
    case Turn => [InvocationStarted]
    case Continuation => [InvocationStarted]
  }

  /** A stream that ends: a compaction still open in it is reported as failed under the trigger it started with. */
  function Closed(body: seq<RuntimeEvent>, end: RuntimeEvent): (s: seq<RuntimeEvent>) {
    body
      + (if OpenAfter(body) && LastStart(body).Some? then [ProviderEvent(CompactionFailed(LastStart(body).value))] else [])
      + [end]
  }

  lemma RestCloses(before: seq<RuntimeEvent>, open: Option<CompactionTrigger>, events: seq<TurnEvent>, outcome: TurnOutcome)
    requires Alternates(before) && OpenAfter(before) == open.Some? && (open.Some? ==> LastStart(before) == open)
    ensures before + Rest(open, events, outcome) == Closed(before + Forwarded(open, events), Terminal(outcome))
  {
    ForwardedAlternates(before, open, events);
    OpenIsLastStart(before, open, events);
  }

  lemma OpeningFacts(kind: Kind)
    ensures Prologue(kind) == Opening(kind)
    ensures OpenAfterPrologue(kind).Some? ==> LastStart(Prologue(kind)) == OpenAfterPrologue(kind)
  {
  }

  /** A turn's stream: the opening, the executor's events, the failure of a compaction left open, and the terminal event
      with the executor's own result or failure. If the opening cannot be sent, that is the failure and nothing is run. */
  lemma StreamMeaning(kind: Kind, events: seq<TurnEvent>, outcome: TurnOutcome, taken: Option<nat>)
    ensures Started(kind, taken) <==> taken.None? || taken.value >= |Opening(kind)|
    ensures Started(kind, taken) && outcome.Succeeded? ==>
              Attempts(kind, events, outcome, taken) ==
                Closed(Opening(kind) + Forwarded(OpenAfterPrologue(kind), events), InvocationCompleted(outcome.result))
    ensures Started(kind, taken) && outcome.Failed? ==>
              Attempts(kind, events, outcome, taken) ==
                Closed(Opening(kind) + Forwarded(OpenAfterPrologue(kind), events), InvocationFailed(outcome.failure))
    ensures taken == Some(0) ==> Attempts(kind, events, outcome, taken) == [InvocationStarted, InvocationFailed(SINK_FAILURE)]
    ensures taken == Some(1) && kind == ManualCompaction ==>
              Attempts(kind, events, outcome, taken) == Closed(Opening(kind), InvocationFailed(SINK_FAILURE))
  {
    PrologueAlternates(kind);
    OpeningFacts(kind);
    hide Alternates;
    hide OpenAfter;
    RestCloses(Prologue(kind), OpenAfterPrologue(kind), events, outcome);
    RestCloses(Prologue(kind), OpenAfterPrologue(kind), [], Failed(SINK_FAILURE));
    assert Prologue(kind) + [] == Prologue(kind);
  }

  /** Unless the opening failed, the events seen that start no compaction are the executor's, and then at most the
      failure of a compaction it left open. */
  lemma ExecutorIsSeen(kind: Kind, events: seq<TurnEvent>, outcome: TurnOutcome, taken: Option<nat>)
    requires Started(kind, taken)
    ensures var body := Opening(kind) + Forwarded(OpenAfterPrologue(kind), events);
            OthersSeen(Attempts(kind, events, outcome, taken)) == Others(events) +
              if OpenAfter(body) && LastStart(body).Some? then [CompactionFailed(LastStart(body).value)] else []
  {
    StreamMeaning(kind, events, outcome, taken);
    hide Attempts;
    hide Started;
    OpeningSeen(kind);
    var body := Opening(kind) + Forwarded(OpenAfterPrologue(kind), events);
    OnlyStartsAreDropped(Opening(kind), OpenAfterPrologue(kind), events);
    assert OthersSeen(body) == Others(events);
    hide Others;
    hide Forwarded;
    var end := if outcome.Succeeded? then InvocationCompleted(outcome.result) else InvocationFailed(outcome.failure);
    ClosedSeen(body, end);
  }

  lemma OpeningSeen(kind: Kind)
    ensures OthersSeen(Opening(kind)) == []
  {
    SeenPush([], InvocationStarted);
    SeenPush([InvocationStarted], ProviderEvent(CompactionStarted(Manual)));
    assert [] + [InvocationStarted] == [InvocationStarted];
    assert [InvocationStarted] + [ProviderEvent(CompactionStarted(Manual))] == Opening(ManualCompaction);
  }

  lemma ClosedSeen(body: seq<RuntimeEvent>, end: RuntimeEvent)
    requires !end.ProviderEvent?
    ensures OthersSeen(Closed(body, end)) == OthersSeen(body) +
              if OpenAfter(body) && LastStart(body).Some? then [CompactionFailed(LastStart(body).value)] else []
  {
    hide OpenAfter;
    hide LastStart;
    hide OthersSeen;
    if OpenAfter(body) && LastStart(body).Some? {
      var failed := ProviderEvent(CompactionFailed(LastStart(body).value));
      SeenPush(body, failed);
      SeenPush(body + [failed], end);
    } else {
      SeenPush(body, end);
      assert body + [] == body;
    }
  }

  // --- session and outcome ---

  ghost predicate NoSession(events: seq<TurnEvent>, from: nat) {
    forall i :: from <= i < |events| ==> !events[i].SessionStarted?
  }

  /** The session announced last, or the one known before if none is announced. */
  lemma {:induction false} LastSessionMeaning(announced: Option<SessionId>, events: seq<TurnEvent>, k: nat)
    requires k <= |events| && NoSession(events, k) && (k > 0 ==> events[k - 1].SessionStarted?)
    ensures LastSession(announced, events) == if k == 0 then announced else Some(events[k - 1].session)
    decreases |events|
  {
    if events != [] {
      var next := if events[0].SessionStarted? then Some(events[0].session) else announced;
      LastSessionMeaning(next, events[1..], if k == 0 then 0 else k - 1);
    }
  }

  /** The session a turn reports: the successful result's own, or else the last one its executor announced. */
  lemma SessionMeaning(kind: Kind, events: seq<TurnEvent>, outcome: TurnOutcome, taken: Option<nat>, k: nat)
    requires k <= |events| && NoSession(events, k) && (k > 0 ==> events[k - 1].SessionStarted?)
    ensures SessionReported(kind, events, outcome, taken) ==
              if !Started(kind, taken) then None
              else if outcome.Succeeded? && outcome.result.session.Some? then outcome.result.session
              else if k > 0 then Some(events[k - 1].session)
              else None
  {
    LastSessionMeaning(None, events, k);
  }

  /** A turn succeeds with a result exactly when its receiver has the completion carrying that result; it fails with the
      failure its stream ends in, or for want of a receiver if the stream ends in a completion. */
  lemma OutcomeMeaning(channel: seq<Envelope>, kind: Kind, events: seq<TurnEvent>, outcome: TurnOutcome, taken: Option<nat>,
    runtime: RuntimeId, invocation: InvocationId, result: TurnResult)
    requires Received(channel, Attempts(kind, events, outcome, taken), taken, runtime, invocation)
    ensures FinalOutcome(kind, events, outcome, taken) == Succeeded(result) <==>
              channel != [] && channel[|channel| - 1].event == InvocationCompleted(result)
    ensures var s := Attempts(kind, events, outcome, taken);
            FinalOutcome(kind, events, outcome, taken).Failed? ==>
              && s != []
              && FinalOutcome(kind, events, outcome, taken).failure ==
                   if s[|s| - 1].InvocationFailed? then s[|s| - 1].failure else SINK_FAILURE
  {
    var s := Attempts(kind, events, outcome, taken);
    AttemptsWellFormed(kind, events, outcome, taken);
    StreamMeaning(kind, events, outcome, taken);
    LastOfStream(kind, events, outcome, taken);
    if channel != [] {
      assert channel[|channel| - 1].event == s[|channel| - 1];
    }
  }

  lemma LastOfStream(kind: Kind, events: seq<TurnEvent>, outcome: TurnOutcome, taken: Option<nat>)
    ensures var s := Attempts(kind, events, outcome, taken);
            && s != []
            && s[|s| - 1] == if Started(kind, taken) then Terminal(outcome) else InvocationFailed(SINK_FAILURE)
  {
  }
}
