/** What a sink delivers is what the pipeline takes from it: the pipeline's guard on emission is a fact of the sink. */
module SinkSource {
  import opened Basics
  import opened Events
  import opened EventSink
  import opened Pipeline

  function Emits(channel: seq<Envelope>): (r: seq<Action>) {
    seq(|channel|, k requires 0 <= k < |channel| =>
      Emit(channel[k].invocation, channel[k].runtime, channel[k].observedAt, channel[k].event))
  }

  /** Before its last event a sink's stream has not ended. */
  lemma NotEnded(channel: seq<Envelope>, kind: Kind, events: seq<TurnEvent>, outcome: TurnOutcome, taken: Option<nat>,
    runtime: RuntimeId, id: InvocationId, k: nat)
    requires Received(channel, Attempts(kind, events, outcome, taken), taken, runtime, id) && k < |channel|
    ensures !Ended(channel[..k])
  {
    AttemptsWellFormed(kind, events, outcome, taken);
    if k > 0 {
      assert channel[k - 1].event == Attempts(kind, events, outcome, taken)[k - 1];
    }
  }

  lemma EmitsOne(s: System, channel: seq<Envelope>, kind: Kind, events: seq<TurnEvent>, outcome: TurnOutcome, taken: Option<nat>,
    runtime: RuntimeId, id: InvocationId, k: nat)
    requires Received(channel, Attempts(kind, events, outcome, taken), taken, runtime, id)
    requires id in s.logs && |channel| < U64_MAX && k < |channel|
    ensures var before := s.(logs := s.logs[id := channel[..k]]);
            && Enabled(before, Emits(channel)[k])
            && Step(before, Emits(channel)[k]) == s.(logs := s.logs[id := channel[..k + 1]])
  {
    NotEnded(channel, kind, events, outcome, taken, runtime, id, k);
    hide Attempts;
    var e := channel[k];
    assert e == Envelope(1, runtime, id, |channel[..k]| + 1, e.observedAt, e.event);
    assert channel[..k + 1] == channel[..k] + [e];
    var before := s.(logs := s.logs[id := channel[..k]]);
    assert Step(before, Emits(channel)[k]).logs == s.logs[id := channel[..k + 1]];
  }

  lemma {:induction false} EmitsPrefix(s: System, channel: seq<Envelope>, kind: Kind, events: seq<TurnEvent>, outcome: TurnOutcome, taken: Option<nat>,
    runtime: RuntimeId, id: InvocationId, k: nat)
    requires Received(channel, Attempts(kind, events, outcome, taken), taken, runtime, id)
    requires id in s.logs && s.logs[id] == [] && |channel| < U64_MAX && k <= |channel|
    ensures RunFrom(s, Emits(channel)[..k]) == Some(s.(logs := s.logs[id := channel[..k]]))
    decreases k
  {
    hide Attempts;
    hide Received;
    if k == 0 {
      assert s.logs[id := []] == s.logs;
    } else {
      EmitsPrefix(s, channel, kind, events, outcome, taken, runtime, id, k - 1);
      EmitsOne(s, channel, kind, events, outcome, taken, runtime, id, k - 1);
      assert Emits(channel)[..k][..k - 1] == Emits(channel)[..k - 1];
    }
  }

  /** For every executor and receiver, the pipeline can take the sink's events one by one, and its log is then
      exactly what the sink delivered. */
  lemma PipelineTakesTheStream(s: System, channel: seq<Envelope>, kind: Kind, events: seq<TurnEvent>, outcome: TurnOutcome, taken: Option<nat>,
    runtime: RuntimeId, id: InvocationId)
    requires Received(channel, Attempts(kind, events, outcome, taken), taken, runtime, id)
    requires id in s.logs && s.logs[id] == [] && |channel| < U64_MAX
    ensures RunFrom(s, Emits(channel)) == Some(s.(logs := s.logs[id := channel]))
  {
    EmitsPrefix(s, channel, kind, events, outcome, taken, runtime, id, |channel|);
    assert Emits(channel)[..|channel|] == Emits(channel) && channel[..|channel|] == channel;
  }
}
