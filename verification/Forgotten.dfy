/** Attaching to an invocation that the journal has forgotten.

    Such an attach is answered with nothing and without an error. What the client sees next depends on the pump
    alone: a gap exactly when the pump already holds an appended event, and otherwise nothing of that
    invocation ever again. */
module Forgotten {
  import opened Basics
  import opened Events
  import opened RecentWindow
  import opened Journal
  import opened JournalHistory
  import opened Replay
  import opened JournalStore
  import opened RemoteClient
  import opened Pipeline
  import opened LiveDelivery

  // --- silence ---

  ghost predicate NoneOf(frames: seq<Envelope>, from: nat, id: InvocationId) {
    forall k :: from <= k < |frames| ==> frames[k].invocation != id
  }

  /** The journal has nothing of an invocation that it accepted events of, and nothing of it waits to be sent. */
  ghost predicate Silent(s: System, id: InvocationId) {
    && id in s.logs && id in s.pumped && id in s.sent && s.pumped[id] > 0
    && id !in s.journal.invocations && !PumpHolds(s, id)
    && (s.replay.Some? ==> NoneOf(s.replay.value.queue, 0, id))
  }

  /** Frames were only added, none of them of this invocation. */
  ghost predicate Quiet(before: seq<seq<Envelope>>, after: seq<seq<Envelope>>, id: InvocationId) {
    && |before| <= |after|
    && (forall c :: 0 <= c < |before| ==> QuietOne(before[c], after[c], id))
    && (forall c :: |before| <= c < |after| ==> NoneOf(after[c], 0, id))
  }

  ghost predicate QuietOne(before: seq<Envelope>, after: seq<Envelope>, id: InvocationId) {
    before <= after && NoneOf(after, |before|, id)
  }

  lemma QuietStays(wires: seq<seq<Envelope>>, id: InvocationId)
    ensures Quiet(wires, wires, id)
  {
  }

  lemma QuietPush(wires: seq<seq<Envelope>>, conn: nat, e: Envelope, id: InvocationId)
    requires conn < |wires| && e.invocation != id
    ensures Quiet(wires, Push(wires, conn, e), id)
  {
  }

  lemma QuietThen(a: seq<seq<Envelope>>, b: seq<seq<Envelope>>, c: seq<seq<Envelope>>, id: InvocationId)
    requires Quiet(a, b, id) && Quiet(b, c, id)
    ensures Quiet(a, c, id)
  {
    forall k | 0 <= k < |a|
      ensures QuietOne(a[k], c[k], id)
    {
      assert QuietOne(a[k], b[k], id) && QuietOne(b[k], c[k], id);
    }
    forall k | |a| <= k < |c|
      ensures NoneOf(c[k], 0, id)
    {
      if k < |b| {
        assert QuietOne(b[k], c[k], id) && NoneOf(b[k], 0, id);
      }
    }
  }

  /** The pump of a forgotten invocation stops at its next append. */
  lemma ForgottenPumpStops(s: System, id: InvocationId)
    requires Safe(s) && PumpIdle(s, id) && 0 < s.pumped[id] < |s.logs[id]| && id !in s.journal.invocations
    ensures id in AfterPumpAppend(s, id).stopped
    ensures AfterPumpAppend(s, id) == s.(stopped := s.stopped + {id}, history := AfterPumpAppend(s, id).history)
  {
    assert LogOk(s.logs[id], id);
  }

  /** Appending an event of one invocation brings no other one back into the journal. */
  lemma AppendBringsOnlyItself(rt: RuntimeJournal, h: History, e: Envelope, limits: Limits, id: InvocationId)
    requires LimitsOk(limits) && Refines(rt, h, limits.maxInvocations, limits.maxEvents)
    requires id !in rt.invocations && id != e.invocation
    ensures id !in RuntimeAfter(rt, e, limits.maxInvocations, limits.maxEvents).invocations
  {
    if e.invocation !in rt.evicted && e.invocation !in rt.invocations && e.sequence == 1 {
      NewBringsOnlyItself(rt, e, limits.maxInvocations, limits.maxEvents);
    }
  }

  lemma AppendStaysSilent(s: System, at: InvocationId, id: InvocationId)
    requires Safe(s) && Silent(s, id) && Enabled(s, PumpAppend(at))
    ensures Silent(AfterPumpAppend(s, at), id)
  {
    if at == id {
      ForgottenPumpStops(s, id);
    } else {
      assert LogOk(s.logs[at], at);
      AppendBringsOnlyItself(s.journal, s.history, s.logs[at][s.pumped[at]], s.limits, id);
      hide Safe;
      hide RuntimeAfter;
      hide RuntimeOutcome;
      hide HistoryAfter;
    }
  }

  lemma SendStaysSilent(s: System, at: InvocationId, ok: bool, arrived: bool, id: InvocationId)
    requires Safe(s) && Silent(s, id) && Enabled(s, PumpSend(at, ok, arrived))
    ensures Silent(AfterPumpSend(s, at, ok, arrived), id)
    ensures Quiet(s.wires, AfterPumpSend(s, at, ok, arrived).wires, id)
  {
    assert LogOk(s.logs[at], at);
    var e := s.logs[at][s.sent[at]];
    hide Safe;
    if s.sink.Some? {
      QuietPush(s.wires, s.sink.value, e, id);
    }
  }

  lemma BatchStaysSilent(s: System, after: Cursors, limit: nat, answer: ReplayResult, id: InvocationId)
    requires Safe(s) && JournalAnswers(s, after, limit, answer) && answer.Batch? && id !in s.journal.invocations
    ensures NoneOf(answer.events, 0, id)
  {
    hide Safe;
    var pool := Pool(s.journal.invocations, Some(after.Keys));
    SubsetDistinct(Pending(pool, after), pool);
    var q := Arrange(Pending(pool, after));
    forall k | 0 <= k < |answer.events|
      ensures answer.events[k].invocation != id
    {
      assert answer.events[k] == q[k] && q[k] in Elements(q);
      PendingMeaning(s, after, q[k]);
    }
  }

  lemma AttachStaysSilent(s: System, a: Action, id: InvocationId)
    requires Safe(s) && Silent(s, id) && a.AttachBegin? && Enabled(s, a)
    ensures Silent(Step(s, a), id) && Quiet(s.wires, Step(s, a).wires, id)
  {
    if a.answer.Batch? {
      BatchStaysSilent(s, a.after, a.limit, a.answer, id);
    }
    hide Safe;
    hide JournalAnswers;
    hide Follow;
    QuietStays(s.wires, id);
    hide Quiet;
  }

  lemma ReplayStaysSilent(s: System, a: Action, id: InvocationId)
    requires Silent(s, id) && (a.AttachSend? || a.AttachEnd? || a.AttachAbort?) && Enabled(s, a)
    ensures Silent(Step(s, a), id) && Quiet(s.wires, Step(s, a).wires, id)
  {
    var r := s.replay.value;
    if r.queue != [] && r.conn < |s.wires| {
      QuietPush(s.wires, r.conn, r.queue[0], id);
    }
    QuietStays(s.wires, id);
    hide Quiet;
    hide Push;
  }

  lemma OtherStaysSilent(s: System, a: Action, id: InvocationId)
    requires Silent(s, id) && PumpOk(s.logs, s.pumped, s.sent, id) && Enabled(s, a)
    requires a.Connect? || a.ClientStart? || a.ClientGiveUp? || a.StartTurn? || a.Emit? || a.JournalLost? || a.Receive?
    ensures Silent(Step(s, a), id) && Quiet(s.wires, Step(s, a).wires, id)
  {
  }

  lemma StepStaysSilent(s: System, a: Action, id: InvocationId)
    requires Safe(s) && Silent(s, id) && Enabled(s, a)
    ensures Silent(Step(s, a), id) && Quiet(s.wires, Step(s, a).wires, id)
  {
    assert PumpOk(s.logs, s.pumped, s.sent, id);
    hide Safe;
    hide Quiet;
    hide Silent;
    match a {
      case PumpAppend(at) =>
        AppendStaysSilent(s, at, id);
        QuietStays(s.wires, id);
      case PumpSend(at, ok, arrived) => SendStaysSilent(s, at, ok, arrived, id);
      case AttachBegin(_, _, _, _) => AttachStaysSilent(s, a, id);
      case AttachSend => ReplayStaysSilent(s, a, id);
      case AttachEnd => ReplayStaysSilent(s, a, id);
      case AttachAbort(_) => ReplayStaysSilent(s, a, id);
      case _ => OtherStaysSilent(s, a, id);
    }
  }

  /** Whatever happens next, nothing of a silent invocation is ever put on a connection again. */
  lemma {:induction false} SilentForever(s: System, more: seq<Action>, s': System, id: InvocationId)
    requires Safe(s) && Silent(s, id) && RunFrom(s, more) == Some(s')
    ensures Safe(s') && Silent(s', id) && Quiet(s.wires, s'.wires, id)
    decreases |more|
  {
    hide Safe;
    hide Silent;
    hide Quiet;
    if more == [] {
      QuietStays(s.wires, id);
    } else {
      var before := RunFrom(s, more[..|more| - 1]).value;
      SilentForever(s, more[..|more| - 1], before, id);
      StepKeepsSafe(before, more[|more| - 1]);
      StepStaysSilent(before, more[|more| - 1], id);
      QuietThen(s.wires, before.wires, s'.wires, id);
    }
  }

  // --- gap or silence ---

  /** In the state `s'` a frame of the invocation is on a connection that was not there in `s`, and it is a gap to
      the client of `s`. */
  ghost predicate NewGap(s: System, s': System, conn: nat, k: nat, id: InvocationId) {
    && conn < |s'.wires| && k < |s'.wires[conn]| && (conn < |s.wires| ==> k >= |s.wires[conn]|)
    && s'.wires[conn][k].invocation == id && Classify(s.client, s'.wires[conn][k]) == Gap
  }

  ghost predicate Leads(s: System, s': System) {
    exists more :: RunFrom(s, more) == Some(s')
  }

  ghost predicate GapAhead(s: System, id: InvocationId) {
    exists s', conn: nat, k: nat :: Leads(s, s') && NewGap(s, s', conn, k, id)
  }

  lemma LeadsOn(s: System, s1: System, a: Action)
    requires Leads(s, s1) && Enabled(s1, a)
    ensures Leads(s, Step(s1, a))
  {
    var more :| RunFrom(s, more) == Some(s1);
    assert (more + [a])[..|more|] == more;
    assert RunFrom(s, more + [a]) == Some(Step(s1, a));
  }

  lemma LeadsThen(s: System, s1: System, s2: System)
    requires Leads(s, s1) && Leads(s1, s2)
    ensures Leads(s, s2)
  {
    var more :| RunFrom(s1, more) == Some(s2);
    LeadsAlong(s, s1, more, s2);
  }

  lemma {:induction false} LeadsAlong(s: System, s1: System, more: seq<Action>, s2: System)
    requires Leads(s, s1) && RunFrom(s1, more) == Some(s2)
    ensures Leads(s, s2)
    decreases |more|
  {
    if more != [] {
      var before := RunFrom(s1, more[..|more| - 1]).value;
      LeadsAlong(s, s1, more[..|more| - 1], before);
      LeadsOn(s, before, more[|more| - 1]);
    }
  }

  /** Sending the rest of a replay, frame by frame. */
  lemma {:induction false} Drain(s: System) returns (s': System)
    requires s.replay.Some? && s.replay.value.conn < |s.wires|
    ensures Leads(s, s') && |s'.wires| == |s.wires|
    ensures forall c :: 0 <= c < |s.wires| ==> s.wires[c] <= s'.wires[c]
    ensures s' == s.(wires := s'.wires, replay := Some(s.replay.value.(queue := [])))
    decreases |s.replay.value.queue|
  {
    if s.replay.value.queue == [] {
      s' := s;
      assert RunFrom(s, []) == Some(s');
    } else {
      assert RunFrom(s, []) == Some(s);
      LeadsOn(s, s, AttachSend);
      var s1 := Step(s, AttachSend);
      s' := Drain(s1);
      LeadsThen(s, s1, s');
    }
  }

  lemma HeldEventGoesOut(s: System, s1: System, id: InvocationId) returns (s2: System)
    requires Leads(s, s1) && PumpHolds(s1, id) && s1.replay.None? && s1.sink.Some? && s1.sink.value < |s1.wires|
    ensures Leads(s, s2) && s2.wires == Push(s1.wires, s1.sink.value, s1.logs[id][s1.sent[id]])
  {
    hide Leads;
    LeadsOn(s, s1, PumpSend(id, true, true));
    s2 := Step(s1, PumpSend(id, true, true));
  }

  /** The held event goes out once the replay is complete, and the client behind the pump finds a gap. */
  lemma HeldEventIsAGap(s: System, id: InvocationId)
    requires Safe(s) && s.replay.Some? && s.sink == Some(s.replay.value.conn) && PumpHolds(s, id)
    requires Known(s.client, id) && s.client.remotes[s.client.invocations[id]].lastSequence < s.sent[id]
    ensures GapAhead(s, id)
  {
    assert LogOk(s.logs[id], id);
    hide Safe;
    hide Leads;
    var s1 := Drain(s);
    LeadsOn(s, s1, AttachEnd);
    var s2 := Step(s1, AttachEnd);
    var s3 := HeldEventGoesOut(s, s2, id);
    var conn := s.replay.value.conn;
    assert NewGap(s, s3, conn, |s1.wires[conn]|, id);
  }

  lemma QuietHasNoGap(s: System, s': System, conn: nat, k: nat, id: InvocationId)
    requires Quiet(s.wires, s'.wires, id)
    ensures !NewGap(s, s', conn, k, id)
  {
    if conn < |s.wires| {
      assert QuietOne(s.wires[conn], s'.wires[conn], id);
    }
  }

  lemma SilentHasNoGap(s: System, id: InvocationId)
    requires Safe(s) && Silent(s, id)
    ensures !GapAhead(s, id)
  {
    hide Safe;
    hide Silent;
    hide Quiet;
    hide NewGap;
    forall s', conn: nat, k: nat | Leads(s, s')
      ensures !NewGap(s, s', conn, k, id)
    {
      var more :| RunFrom(s, more) == Some(s');
      SilentForever(s, more, s', id);
      QuietHasNoGap(s, s', conn, k, id);
    }
  }

  /** The exact split: a client attaches with its own cursor to an invocation that the replay cannot cover, and is
      told that nothing was left out. A gap can follow if and only if the pump holds an event already
      appended; otherwise nothing of the invocation ever follows. */
  lemma UncoveredGapIff(s: System, conn: nat, after: Cursors, limit: nat, answer: ReplayResult, id: InvocationId)
    requires Safe(s) && Enabled(s, AttachBegin(conn, after, limit, answer)) && answer.Batch?
    requires id in after && id in s.logs && !Followable(s, id, after[id])
    requires Known(s.client, id) && s.client.remotes[s.client.invocations[id]].lastSequence == after[id]
    ensures GapAhead(AfterAttachBegin(s, conn, after, answer), id) <==> PumpHolds(s, id)
    ensures !PumpHolds(s, id) ==> Silent(AfterAttachBegin(s, conn, after, answer), id)
  {
    var s1 := AfterAttachBegin(s, conn, after, answer);
    assert PumpOk(s.logs, s.pumped, s.sent, id);
    StepKeepsSafe(s, AttachBegin(conn, after, limit, answer));
    BatchStaysSilent(s, after, limit, answer, id);
    hide Safe;
    hide JournalAnswers;
    if PumpHolds(s, id) {
      HeldEventIsAGap(s1, id);
    } else {
      SilentHasNoGap(s1, id);
    }
  }

  // --- such a gap is reached ---

  lemma RunPush(limits: Limits, actions: seq<Action>, s: System, a: Action)
    requires Reaches(limits, actions, s) && Enabled(s, a)
    ensures Reaches(limits, actions + [a], Step(s, a))
  {
    assert (actions + [a])[..|actions|] == actions;
  }

  const FIRST: Envelope := Envelope(1, 0, 0, 1, 0, InvocationStarted)
  const SECOND: Envelope := Envelope(1, 0, 0, 2, 0, InvocationStarted)

  /** One turn of a client that has read nothing, and its pump with nothing appended. */
  ghost predicate Begun(s: System, log: seq<Envelope>, p: nat, n: nat) {
    && s.logs == map[0 := log] && s.pumped == map[0 := p] && s.sent == map[0 := n] && s.stopped == {}
    && s.sink == Some(0) && s.replay.None? && |s.wires| == |s.read| == 1
    && s.client == Client(map[0 := 0], [Remote(0, 0, [], None)], 0)
  }

  lemma BeginTurn(limits: Limits) returns (actions: seq<Action>, s: System)
    requires LimitsOk(limits)
    ensures Reaches(limits, actions, s) && Begun(s, [FIRST], 0, 0)
    ensures s.journal == EMPTY_RUNTIME && s.history == EMPTY_HISTORY && s.limits == limits
  {
    var s0 := Start(limits);
    assert Reaches(limits, [], s0);
    RunPush(limits, [], s0, Connect);
    var s1 := Step(s0, Connect);
    RunPush(limits, [] + [Connect], s1, ClientStart(0));
    var s2 := Step(s1, ClientStart(0));
    RunPush(limits, [] + [Connect] + [ClientStart(0)], s2, StartTurn(0, 0));
    var s3 := Step(s2, StartTurn(0, 0));
    actions := [] + [Connect] + [ClientStart(0)] + [StartTurn(0, 0)];
    RunPush(limits, actions, s3, Emit(0, 0, 0, InvocationStarted));
    actions := actions + [Emit(0, 0, 0, InvocationStarted)];
    s := Step(s3, Emit(0, 0, 0, InvocationStarted));
    assert s.logs[0] == [FIRST];
  }

  lemma AppendOne(limits: Limits, actions: seq<Action>, s: System, log: seq<Envelope>, p: nat) returns (actions': seq<Action>, s': System)
    requires Reaches(limits, actions, s) && Begun(s, log, p, p) && p < |log| && s.limits == limits
    requires RuntimeOutcome(s.journal, log[p], limits.maxInvocations).Appended?
    ensures Reaches(limits, actions', s') && Begun(s', log, p + 1, p) && s'.limits == limits
    ensures s'.journal == RuntimeAfter(s.journal, log[p], limits.maxInvocations, limits.maxEvents)
  {
    hide RuntimeOutcome;
    hide RuntimeAfter;
    hide HistoryAfter;
    hide Run;
    RunPush(limits, actions, s, PumpAppend(0));
    actions' := actions + [PumpAppend(0)];
    s' := Step(s, PumpAppend(0));
  }

  lemma SendOne(limits: Limits, actions: seq<Action>, s: System, log: seq<Envelope>, n: nat) returns (actions': seq<Action>, s': System)
    requires Reaches(limits, actions, s) && Begun(s, log, n + 1, n) && n < |log|
    ensures Reaches(limits, actions', s') && Begun(s', log, n + 1, n + 1)
    ensures s'.limits == s.limits && s'.journal == s.journal
  {
    hide Run;
    RunPush(limits, actions, s, PumpSend(0, true, true));
    actions' := actions + [PumpSend(0, true, true)];
    s' := Step(s, PumpSend(0, true, true));
  }

  lemma EmitSecond(limits: Limits, actions: seq<Action>, s: System) returns (actions': seq<Action>, s': System)
    requires Reaches(limits, actions, s) && Begun(s, [FIRST], 1, 1)
    ensures Reaches(limits, actions', s') && Begun(s', [FIRST, SECOND], 1, 1)
    ensures s'.limits == s.limits && s'.journal == s.journal
  {
    hide Run;
    RunPush(limits, actions, s, Emit(0, 0, 0, InvocationStarted));
    actions' := actions + [Emit(0, 0, 0, InvocationStarted)];
    s' := Step(s, Emit(0, 0, 0, InvocationStarted));
    assert s'.logs[0] == [FIRST, SECOND];
  }

  lemma FirstIsRetained(limits: Limits)
    requires LimitsOk(limits)
    ensures RuntimeOutcome(EMPTY_RUNTIME, FIRST, limits.maxInvocations).Appended?
    ensures 0 in RuntimeAfter(EMPTY_RUNTIME, FIRST, limits.maxInvocations, limits.maxEvents).invocations
  {
    EmptyRefines(limits.maxInvocations, limits.maxEvents);
    NewAfter(EMPTY_RUNTIME, EMPTY_HISTORY, FIRST, limits.maxInvocations, limits.maxEvents);
    AdmitKeepsWindows(EMPTY_RUNTIME, 0, limits.maxInvocations);
  }

  /** The journal accepts the next event of a retained invocation. */
  lemma SecondIsAppended(s: System)
    requires Safe(s) && Begun(s, [FIRST, SECOND], 1, 1) && 0 in s.journal.invocations
    ensures RuntimeOutcome(s.journal, SECOND, s.limits.maxInvocations).Appended?
  {
    assert AppendedOk(s.history, s.logs, s.pumped, 0);
    KnownAfter(s.journal, s.history, SECOND, s.limits.maxInvocations, s.limits.maxEvents);
    RefinesOrdered(s.journal, s.history, s.limits.maxInvocations, s.limits.maxEvents);
  }

  lemma SendFirst(limits: Limits) returns (actions: seq<Action>, s: System)
    requires LimitsOk(limits)
    ensures Reaches(limits, actions, s) && Begun(s, [FIRST, SECOND], 1, 1) && s.limits == limits
    ensures 0 in s.journal.invocations
  {
    hide RuntimeOutcome;
    hide RuntimeAfter;
    hide Reaches;
    hide Begun;
    FirstIsRetained(limits);
    actions, s := BeginTurn(limits);
    actions, s := AppendOne(limits, actions, s, [FIRST], 0);
    actions, s := SendOne(limits, actions, s, [FIRST], 0);
    actions, s := EmitSecond(limits, actions, s);
  }

  /** Both events are appended, the first is sent, and the journal is displaced. */
  lemma HoldSecond(limits: Limits) returns (actions: seq<Action>, s: System)
    requires LimitsOk(limits)
    ensures Reaches(limits, actions, s) && Begun(s, [FIRST, SECOND], 2, 1) && s.limits == limits
    ensures s.journal == EMPTY_RUNTIME
  {
    hide RuntimeOutcome;
    hide RuntimeAfter;
    hide Reaches;
    hide Begun;
    hide Safe;
    actions, s := SendFirst(limits);
    RunKeepsSafe(limits, actions, s);
    SecondIsAppended(s);
    actions, s := AppendOne(limits, actions, s, [FIRST, SECOND], 1);
    actions, s := Displace(limits, actions, s);
  }

  lemma Displace(limits: Limits, actions: seq<Action>, s: System) returns (actions': seq<Action>, s': System)
    requires Reaches(limits, actions, s)
    ensures Reaches(limits, actions', s') && s' == s.(journal := EMPTY_RUNTIME, history := EMPTY_HISTORY)
    ensures forall log, p: nat, n: nat :: Begun(s, log, p, n) ==> Begun(s', log, p, n)
  {
    hide Run;
    RunPush(limits, actions, s, JournalLost);
    actions' := actions + [JournalLost];
    s' := Step(s, JournalLost);
  }

  lemma EmptyAnswer(s: System, after: Cursors)
    requires s.journal == EMPTY_RUNTIME && LimitsOk(s.limits)
    ensures JournalAnswers(s, after, 1, Batch([], after, false))
  {
    var pool := Pool(s.journal.invocations, Some(after.Keys));
    assert pool == {};
    assert Pending(pool, after) == {};
    ArrangeIs({}, []);
    assert BatchOf(pool, after, 1) == Batch([], after, false);
  }

  /** A run in which it happens: the second event is appended, another runtime displaces the journal, the client
      reconnects and attaches from where it stands, is told that nothing was left out, and reads a gap. */
  lemma ForgottenGapIsReached(limits: Limits) returns (actions: seq<Action>, s: System)
    requires LimitsOk(limits)
    ensures Reaches(limits, actions, s)
    ensures Enabled(s, Receive(1, Sent)) && Classify(s.client, s.wires[1][s.read[1]]) == Gap
  {
    actions, s := HoldSecond(limits);
    actions, s := Reattach(limits, actions, s);
    RunPush(limits, actions, s, PumpSend(0, true, true));
    actions, s := actions + [PumpSend(0, true, true)], Step(s, PumpSend(0, true, true));
  }

  /** The client opens a second connection and attaches there from the start. */
  lemma Reattach(limits: Limits, actions: seq<Action>, s: System) returns (actions': seq<Action>, s': System)
    requires Reaches(limits, actions, s) && Begun(s, [FIRST, SECOND], 2, 1) && s.journal == EMPTY_RUNTIME && s.limits == limits
    ensures Reaches(limits, actions', s') && PumpHolds(s', 0) && s'.logs[0] == [FIRST, SECOND] && s'.sent[0] == 1
    ensures s'.replay.None? && s'.sink == Some(1) && |s'.wires| == |s'.read| == 2 && s'.wires[1] == [] && s'.read[1] == 0
    ensures s'.client == Client(map[0 := 0], [Remote(0, 0, [], None)], 0)
  {
    RunPush(limits, actions, s, Connect);
    var s1 := Step(s, Connect);
    actions' := actions + [Connect];
    var after: Cursors := map[0 := 0];
    EmptyAnswer(s1, after);
    hide JournalAnswers;
    var attach := AttachBegin(1, after, 1, Batch([], after, false));
    RunPush(limits, actions', s1, attach);
    var s2 := Step(s1, attach);
    actions' := actions' + [attach];
    RunPush(limits, actions', s2, AttachEnd);
    actions' := actions' + [AttachEnd];
    s' := Step(s2, AttachEnd);
  }
}
