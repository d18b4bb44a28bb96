/** How the client's invocations end, and when the client asks for recovery: over every run of the pipeline. */
module ClientOutcomes {
  import opened Basics
  import opened Events
  import opened Journal
  import opened RemoteClient
  import opened Pipeline

  /** The last event that reached the channel. */
  predicate EndsIn(delivered: seq<Envelope>, event: RuntimeEvent) {
    delivered != [] && delivered[|delivered| - 1].event == event
  }

  /** A terminal event completes the turn with its own outcome, and only it brings a success. */
  ghost predicate Honest(r: Remote) {
    && (forall result :: r.completion == Some(Ok(result)) <==> EndsIn(r.delivered, InvocationCompleted(result)))
    && (forall failure :: EndsIn(r.delivered, InvocationFailed(failure)) ==> r.completion == Some(Err(failure)))
  }

  ghost predicate AllHonest(remotes: seq<Remote>) {
    forall h :: 0 <= h < |remotes| ==> Honest(remotes[h])
  }

  /** What a step does to the client. */
  ghost function ClientStep(s: System, a: Action): (c: Client)
    requires Enabled(s, a)
  {
    match a
    case Receive(conn, send) => Route(s.client, s.wires[conn][s.read[conn]], send)
    case ClientStart(id) => Register(s.client, id)
    case ClientGiveUp(id, failure) => GiveUp(s.client, id, failure)
    case _ => s.client
  }

  lemma StepOfClient(s: System, a: Action)
    requires Enabled(s, a)
    ensures Step(s, a).client == ClientStep(s, a)
  {
    hide Route;
    hide Register;
    hide GiveUp;
  }

  lemma RouteKeepsHonest(c: Client, e: Envelope, send: SendOutcome)
    requires ClientOk(c) && AllHonest(c.remotes)
    ensures AllHonest(Route(c, e, send).remotes)
  {
    if Classify(c, e).Next? {
      var h := c.invocations[e.invocation];
      assert RegisteredOk(c, e.invocation) && Honest(c.remotes[h]);
      assert Honest(Route(c, e, send).remotes[h]);
    }
  }

  lemma GiveUpKeepsHonest(c: Client, id: InvocationId, failure: Option<Failure>)
    requires ClientOk(c) && AllHonest(c.remotes)
    ensures AllHonest(GiveUp(c, id, failure).remotes)
  {
    if Known(c, id) {
      assert RegisteredOk(c, id) && Honest(c.remotes[c.invocations[id]]);
      assert Honest(GiveUp(c, id, failure).remotes[c.invocations[id]]);
    }
  }

  lemma StepKeepsHonest(s: System, a: Action)
    requires ClientOk(s.client) && Enabled(s, a) && AllHonest(s.client.remotes)
    ensures AllHonest(Step(s, a).client.remotes)
  {
    StepOfClient(s, a);
    hide Step;
    hide Route;
    hide GiveUp;
    match a {
      case Receive(conn, send) => RouteKeepsHonest(s.client, s.wires[conn][s.read[conn]], send);
      case ClientGiveUp(id, failure) => GiveUpKeepsHonest(s.client, id, failure);
      case _ =>
    }
  }

  lemma {:induction false} RunKeepsHonest(limits: Limits, actions: seq<Action>, s: System)
    requires Reaches(limits, actions, s)
    ensures AllHonest(s.client.remotes)
    decreases |actions|
  {
    if actions != [] {
      var most := actions[..|actions| - 1];
      var before := Run(limits, most).value;
      RunKeepsHonest(limits, most, before);
      RunKeepsSafe(limits, most, before);
      hide Safe;
      hide Step;
      assert ClientOk(before.client) by { SafeCounts(before); }
      StepKeepsHonest(before, actions[|actions| - 1]);
    }
  }

  /** In every run, a turn has succeeded with a result exactly when its channel ends in the completion carrying that
      result, and one whose channel ends in a failure has failed with that failure. */
  lemma TerminalEventDecides(limits: Limits, actions: seq<Action>, s: System, h: nat, result: TurnResult, failure: Failure)
    requires Reaches(limits, actions, s) && h < |s.client.remotes|
    ensures s.client.remotes[h].completion == Some(Ok(result)) <==> EndsIn(s.client.remotes[h].delivered, InvocationCompleted(result))
    ensures EndsIn(s.client.remotes[h].delivered, InvocationFailed(failure)) ==> s.client.remotes[h].completion == Some(Err(failure))
  {
    RunKeepsHonest(limits, actions, s);
    assert Honest(s.client.remotes[h]);
  }

  // --- the other failures ---

  /** The client gives up on the invocation, or its channel refuses the event that comes next. */
  predicate Fails(s: System, a: Action, h: nat, failure: Failure) {
    && h < |s.client.remotes|
    && var r := s.client.remotes[h];
       && r.id in s.client.invocations && s.client.invocations[r.id] == h
       && match a
          case ClientGiveUp(id, reason) => id == r.id && reason == Some(failure)
          case Receive(conn, send) =>
            && conn < |s.wires| && conn < |s.read| && s.read[conn] < |s.wires[conn]|
            && var e := s.wires[conn][s.read[conn]];
               e.invocation == r.id && e.sequence == |r.delivered| + 1 && !send.Sent? && failure == CHANNEL_FAILURE
          case _ => false
  }

  /** Step `k` of the run fails the invocation. */
  ghost predicate FailsAt(limits: Limits, actions: seq<Action>, k: int, h: nat, failure: Failure) {
    && 0 <= k < |actions|
    && Run(limits, actions[..k]).Some? && Fails(Run(limits, actions[..k]).value, actions[k], h, failure)
  }

  ghost predicate SomeStepFails(limits: Limits, actions: seq<Action>, h: nat, failure: Failure) {
    exists k :: FailsAt(limits, actions, k, h, failure)
  }

  lemma StepsSplit(limits: Limits, actions: seq<Action>, before: System, h: nat, failure: Failure)
    requires actions != [] && Run(limits, actions[..|actions| - 1]) == Some(before)
    ensures SomeStepFails(limits, actions, h, failure) <==>
              SomeStepFails(limits, actions[..|actions| - 1], h, failure) || Fails(before, actions[|actions| - 1], h, failure)
  {
    hide Run;
    hide Fails;
    var most := actions[..|actions| - 1];
    assert forall k :: 0 <= k < |most| ==> actions[..k] == most[..k] && actions[k] == most[k];
    assert forall k :: 0 <= k < |most| ==> (FailsAt(limits, actions, k, h, failure) <==> FailsAt(limits, most, k, h, failure));
    if Fails(before, actions[|actions| - 1], h, failure) {
      assert FailsAt(limits, actions, |actions| - 1, h, failure);
    }
    if SomeStepFails(limits, most, h, failure) {
      var k :| FailsAt(limits, most, k, h, failure);
      assert FailsAt(limits, actions, k, h, failure);
    }
  }

  predicate HasFailed(c: Client, h: nat, failure: Failure) {
    h < |c.remotes| && c.remotes[h].completion == Some(Err(failure))
  }

  predicate Announced(c: Client, h: nat, failure: Failure) {
    h < |c.remotes| && EndsIn(c.remotes[h].delivered, InvocationFailed(failure))
  }

  /** The events that reached a channel are as many as its cursor says. */
  ghost predicate CursorsCount(c: Client) {
    forall h :: 0 <= h < |c.remotes| ==> |c.remotes[h].delivered| == c.remotes[h].lastSequence
  }

  lemma SafeCounts(s: System)
    requires Safe(s)
    ensures CursorsCount(s.client) && ClientOk(s.client)
  {
    forall h | 0 <= h < |s.client.remotes|
      ensures |s.client.remotes[h].delivered| == s.client.remotes[h].lastSequence
    {
      assert RemoteOk(s.logs, s.client.remotes[h]);
    }
  }

  lemma RouteFailsIff(s: System, conn: nat, send: SendOutcome, h: nat, failure: Failure)
    requires ClientOk(s.client) && CursorsCount(s.client) && AllHonest(s.client.remotes)
    requires conn < |s.wires| && conn < |s.read| && s.read[conn] < |s.wires[conn]|
    ensures var c' := Route(s.client, s.wires[conn][s.read[conn]], send);
            HasFailed(c', h, failure) <==>
              || HasFailed(s.client, h, failure) || Fails(s, Receive(conn, send), h, failure)
              || Announced(c', h, failure)
  {
    var e := s.wires[conn][s.read[conn]];
    if Known(s.client, e.invocation) {
      assert RegisteredOk(s.client, e.invocation);
      assert Honest(s.client.remotes[s.client.invocations[e.invocation]]);
    }
    if h < |s.client.remotes| {
      assert Honest(s.client.remotes[h]);
    }
  }

  lemma GiveUpFailsIff(s: System, id: InvocationId, reason: Option<Failure>, h: nat, failure: Failure)
    requires ClientOk(s.client) && AllHonest(s.client.remotes)
    ensures HasFailed(GiveUp(s.client, id, reason), h, failure) <==>
              HasFailed(s.client, h, failure) || Fails(s, ClientGiveUp(id, reason), h, failure)
    ensures Announced(GiveUp(s.client, id, reason), h, failure) ==> HasFailed(s.client, h, failure)
  {
    assert Known(s.client, id) ==> RegisteredOk(s.client, id);
    if h < |s.client.remotes| {
      assert Honest(s.client.remotes[h]);
    }
  }

  /** One step: a turn has failed after it exactly if it had before, or the step fails it or brings it the failure. */
  lemma StepFailsIff(s: System, a: Action, h: nat, failure: Failure)
    requires Enabled(s, a) && ClientOk(s.client) && CursorsCount(s.client) && AllHonest(s.client.remotes)
    ensures HasFailed(Step(s, a).client, h, failure) <==>
              || HasFailed(s.client, h, failure) || Fails(s, a, h, failure)
              || Announced(Step(s, a).client, h, failure)
  {
    StepOfClient(s, a);
    hide Step;
    hide Route;
    hide GiveUp;
    match a {
      case Receive(conn, send) => RouteFailsIff(s, conn, send, h, failure);
      case ClientGiveUp(id, reason) => GiveUpFailsIff(s, id, reason, h, failure);
      case _ =>
        if h < |s.client.remotes| {
          assert Honest(s.client.remotes[h]);
        }
    }
  }

  /** In every run, a turn has failed exactly when its channel ends in that failure or some step gave up on it, or found
      its channel full or closed, with that failure. */
  lemma {:induction false} FailureHasACause(limits: Limits, actions: seq<Action>, s: System, h: nat, failure: Failure)
    requires Reaches(limits, actions, s)
    ensures HasFailed(s.client, h, failure) <==>
              Announced(s.client, h, failure) || SomeStepFails(limits, actions, h, failure)
    decreases |actions|
  {
    if actions != [] {
      var most, a := actions[..|actions| - 1], actions[|actions| - 1];
      var before := Run(limits, most).value;
      FailureHasACause(limits, most, before, h, failure);
      RunKeepsSafe(limits, most, before);
      SafeCounts(before);
      RunKeepsHonest(limits, most, before);
      StepsSplit(limits, actions, before, h, failure);
      StepFailsIff(before, a, h, failure);
      if Announced(before.client, h, failure) {
        assert Honest(before.client.remotes[h]);
        StepFreezes(before, a, h);
      }
    }
  }

  // --- registration ---

  predicate Registered(c: Client, h: nat) {
    h < |c.remotes| && c.remotes[h].id in c.invocations && c.invocations[c.remotes[h].id] == h
  }

  /** The client gives up on the identifier without a failure, or starts another turn under it. */
  predicate Drops(s: System, a: Action, h: nat) {
    && h < |s.client.remotes|
    && (a == ClientGiveUp(s.client.remotes[h].id, None) || a == ClientStart(s.client.remotes[h].id))
  }

  ghost predicate DropsAt(limits: Limits, actions: seq<Action>, k: int, h: nat) {
    && 0 <= k < |actions|
    && Run(limits, actions[..k]).Some? && Drops(Run(limits, actions[..k]).value, actions[k], h)
  }

  ghost predicate SomeStepDrops(limits: Limits, actions: seq<Action>, h: nat) {
    exists k :: DropsAt(limits, actions, k, h)
  }

  lemma DropsSplit(limits: Limits, actions: seq<Action>, before: System, h: nat)
    requires actions != [] && Run(limits, actions[..|actions| - 1]) == Some(before)
    ensures SomeStepDrops(limits, actions, h) <==>
              SomeStepDrops(limits, actions[..|actions| - 1], h) || Drops(before, actions[|actions| - 1], h)
  {
    hide Run;
    hide Drops;
    var most := actions[..|actions| - 1];
    assert forall k :: 0 <= k < |most| ==> actions[..k] == most[..k] && actions[k] == most[k];
    assert forall k :: 0 <= k < |most| ==> (DropsAt(limits, actions, k, h) <==> DropsAt(limits, most, k, h));
    if Drops(before, actions[|actions| - 1], h) {
      assert DropsAt(limits, actions, |actions| - 1, h);
    }
    if SomeStepDrops(limits, most, h) {
      var k :| DropsAt(limits, most, k, h);
      assert DropsAt(limits, actions, k, h);
    }
  }

  lemma RouteRegistersIff(c: Client, e: Envelope, send: SendOutcome, h: nat)
    requires ClientOk(c) && h < |c.remotes|
    ensures var c' := Route(c, e, send);
            && |c'.remotes| == |c.remotes| && (c.remotes[h].completion.Some? ==> c'.remotes[h].completion.Some?)
            && (Registered(c', h) <==> Registered(c, h) && c'.remotes[h].completion.None?)
  {
    assert Registered(c, h) ==> RegisteredOk(c, c.remotes[h].id);
    assert Known(c, e.invocation) ==> RegisteredOk(c, e.invocation);
  }

  lemma GiveUpRegistersIff(c: Client, id: InvocationId, failure: Option<Failure>, h: nat)
    requires ClientOk(c) && h < |c.remotes|
    ensures var c' := GiveUp(c, id, failure);
            && |c'.remotes| == |c.remotes| && (c.remotes[h].completion.Some? ==> c'.remotes[h].completion.Some?)
            && (Registered(c', h) <==>
                  Registered(c, h) && c'.remotes[h].completion.None? && !(failure.None? && id == c.remotes[h].id))
  {
    assert Registered(c, h) ==> RegisteredOk(c, c.remotes[h].id);
    assert Known(c, id) ==> RegisteredOk(c, id);
  }

  /** One step: a registered turn stays registered unless it completes or is dropped, and no other is registered again. */
  lemma StepRegistersIff(s: System, a: Action, h: nat)
    requires Enabled(s, a) && ClientOk(s.client) && h < |s.client.remotes|
    ensures h < |Step(s, a).client.remotes|
    ensures Registered(Step(s, a).client, h) <==>
              Registered(s.client, h) && Step(s, a).client.remotes[h].completion.None? && !Drops(s, a, h)
    ensures s.client.remotes[h].completion.Some? ==> Step(s, a).client.remotes[h].completion.Some?
  {
    StepOfClient(s, a);
    hide Step;
    hide Route;
    hide GiveUp;
    assert Registered(s.client, h) ==> RegisteredOk(s.client, s.client.remotes[h].id);
    match a {
      case Receive(conn, send) => RouteRegistersIff(s.client, s.wires[conn][s.read[conn]], send, h);
      case ClientGiveUp(id, failure) => GiveUpRegistersIff(s.client, id, failure, h);
      case _ =>
    }
  }

  lemma NotYetDropped(limits: Limits, actions: seq<Action>, s: System, h: nat)
    requires Reaches(limits, actions, s) && h >= |s.client.remotes|
    ensures !SomeStepDrops(limits, actions, h)
    decreases |actions|
  {
    if actions != [] {
      var most := actions[..|actions| - 1];
      var before := Run(limits, most).value;
      RunKeepsSafe(limits, most, before);
      SafeCounts(before);
      hide Safe;
      RemotesGrow(before, actions[|actions| - 1]);
      hide Step;
      NotYetDropped(limits, most, before, h);
      DropsSplit(limits, actions, before, h);
    }
  }

  lemma RemotesGrow(s: System, a: Action)
    requires Enabled(s, a) && ClientOk(s.client)
    ensures |s.client.remotes| <= |Step(s, a).client.remotes| <= |s.client.remotes| + 1
    ensures |Step(s, a).client.remotes| > |s.client.remotes| ==>
              && a.ClientStart?
              && Step(s, a).client.remotes[|s.client.remotes|] == Remote(a.id, 0, [], None)
              && Registered(Step(s, a).client, |s.client.remotes|)
  {
    StepOfClient(s, a);
    hide Step;
  }

  /** In every run a turn is registered exactly as long as it has not completed, the client has not given up on it, and no
      other turn was started under its identifier. */
  lemma {:induction false} RegisteredIff(limits: Limits, actions: seq<Action>, s: System, h: nat)
    requires Reaches(limits, actions, s) && h < |s.client.remotes|
    ensures Registered(s.client, h) <==> s.client.remotes[h].completion.None? && !SomeStepDrops(limits, actions, h)
    decreases |actions|
  {
    if actions != [] {
      var most, a := actions[..|actions| - 1], actions[|actions| - 1];
      var before := Run(limits, most).value;
      RunKeepsSafe(limits, most, before);
      SafeCounts(before);
      hide Safe;
      DropsSplit(limits, actions, before, h);
      RemotesGrow(before, a);
      hide SomeStepDrops;
      if h < |before.client.remotes| {
        RegisteredIff(limits, most, before, h);
        StepRegistersIff(before, a, h);
      } else {
        NotYetDropped(limits, most, before, h);
      }
    }
  }

  // --- recoveries ---

  /** The frame read next is for a registered invocation and leaves out at least one event. */
  predicate Skips(s: System, a: Action) {
    && a.Receive? && a.conn < |s.wires| && a.conn < |s.read| && s.read[a.conn] < |s.wires[a.conn]|
    && var e := s.wires[a.conn][s.read[a.conn]];
       Known(s.client, e.invocation) && e.sequence > |s.client.remotes[s.client.invocations[e.invocation]].delivered| + 1
  }

  ghost function SkipsRead(limits: Limits, actions: seq<Action>): (n: nat) {
    if actions == [] then 0
    else
      var most := actions[..|actions| - 1];
      SkipsRead(limits, most)
        + if Run(limits, most).Some? && Skips(Run(limits, most).value, actions[|actions| - 1]) then 1 else 0
  }

  /** In every run, recovery was requested once for each event read that left out another. */
  lemma {:induction false} RecoveriesCountSkips(limits: Limits, actions: seq<Action>, s: System)
    requires Reaches(limits, actions, s)
    ensures s.client.recoveries == SkipsRead(limits, actions)
    decreases |actions|
  {
    hide Safe;
    hide Step;
    hide Skips;
    if actions != [] {
      var most, a := actions[..|actions| - 1], actions[|actions| - 1];
      var before := Run(limits, most).value;
      RecoveriesCountSkips(limits, most, before);
      RunKeepsSafe(limits, most, before);
      SafeCounts(before);
      StepAsksOnce(before, a);
    }
  }

  lemma StepAsksOnce(s: System, a: Action)
    requires Enabled(s, a) && ClientOk(s.client) && CursorsCount(s.client)
    ensures Step(s, a).client.recoveries == s.client.recoveries + if Skips(s, a) then 1 else 0
  {
    StepOfClient(s, a);
    hide Step;
  }
}
