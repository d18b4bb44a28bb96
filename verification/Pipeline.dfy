/** The event pipeline of one runtime, from the host's sinks to the client's channels.

    Host tasks, the journal, the carrier and the client take steps in any order. A carrier delivers
    frames in order, so what a client reads from a connection is a prefix of what was sent on it;
    losing a connection is never reading from it again. Each lock-held section, and each routed
    event, is one step. */
module Pipeline {
  import opened Basics
  import opened Events
  import opened RecentWindow
  import opened Journal
  import opened JournalHistory
  import opened Replay
  import opened JournalStore
  import opened RemoteClient

  /** An invocation whose frames on the live connection are followed from a cursor on; `handle` is the
      client's invocation if it had reached that cursor. */
  datatype Tracked = Tracked(cursor: nat, handle: Option<nat>)

  /** An attach that is sending its replay and holds the delivery gate. */
  datatype Replaying = Replaying(conn: nat, queue: seq<Envelope>, base: nat, tracked: map<InvocationId, Tracked>, whole: bool)

  datatype System = System(
    limits: Limits,
    // host: what each sink emitted, and how far its pump has appended and sent
    logs: map<InvocationId, seq<Envelope>>,
    pumped: map<InvocationId, nat>,
    sent: map<InvocationId, nat>,
    stopped: set<InvocationId>,
    journal: RuntimeJournal,
    history: History,
    // carrier: every frame sent on each connection, and how many the client has read
    wires: seq<seq<Envelope>>,
    read: seq<nat>,
    // host: the live connection and the delivery gate
    sink: Option<nat>,
    replay: Option<Replaying>,
    base: nat,
    tracked: map<InvocationId, Tracked>,
    client: Client)

  datatype Action =
    | Connect
    | ClientStart(id: InvocationId)
    | ClientGiveUp(id: InvocationId, failure: Option<Failure>)
    | StartTurn(conn: nat, id: InvocationId)
    | Emit(id: InvocationId, runtime: RuntimeId, now: nat, event: RuntimeEvent)
    | PumpAppend(id: InvocationId)
    | PumpSend(id: InvocationId, ok: bool, arrived: bool)
    | AttachBegin(conn: nat, after: Cursors, limit: nat, answer: ReplayResult)
    | AttachSend
    | AttachEnd
    | AttachAbort(arrived: bool)
    | JournalLost
    | Receive(conn: nat, send: SendOutcome)

  function Start(limits: Limits): (s: System) {
    System(limits, map[], map[], map[], {}, EMPTY_RUNTIME, EMPTY_HISTORY, [], [], None, None, 0, map[], Client(map[], [], 0))
  }

  predicate Ended(log: seq<Envelope>) {
    log != [] && IsTerminal(log[|log| - 1].event)
  }

  /** The journal's answer to an attach, which selects exactly the cursored invocations. */
  ghost predicate JournalAnswers(s: System, after: Cursors, limit: nat, answer: ReplayResult) {
    if limit == 0 || limit > s.limits.maxReplay then answer == InvalidReplayLimit(s.limits.maxReplay, limit)
    else
      && Distinct(Pool(s.journal.invocations, Some(after.Keys)))
      && Answers(s.journal, after, Some(after.Keys), limit, answer)
  }

  /** The pump of an invocation is between two events. */
  predicate PumpIdle(s: System, id: InvocationId) {
    id in s.logs && id in s.pumped && id in s.sent && id !in s.stopped && s.pumped[id] == s.sent[id]
  }

  /** The pump has appended an event that it has not sent yet. */
  predicate PumpHolds(s: System, id: InvocationId) {
    && id in s.logs && id in s.pumped && id in s.sent && id !in s.stopped
    && s.pumped[id] == s.sent[id] + 1 && s.sent[id] < |s.logs[id]|
  }

  ghost predicate Enabled(s: System, a: Action) {
    match a
    case Connect => true
    case ClientStart(_) => true
    case ClientGiveUp(_, _) => true
    case StartTurn(conn, id) => conn < |s.wires| && id !in s.logs
    case Emit(id, _, _, _) => id in s.logs && !Ended(s.logs[id]) && |s.logs[id]| + 1 < U64_MAX
    case PumpAppend(id) => PumpIdle(s, id) && s.pumped[id] < |s.logs[id]|
    case PumpSend(id, _, _) => PumpHolds(s, id) && s.replay.None? && (s.sink.Some? ==> s.sink.value < |s.wires|)
    case AttachBegin(conn, after, limit, answer) =>
      conn < |s.wires| && s.replay.None? && JournalAnswers(s, after, limit, answer)
    case AttachSend => s.replay.Some? && s.replay.value.queue != [] && s.replay.value.conn < |s.wires|
    case AttachEnd => s.replay.Some? && s.replay.value.queue == []
    case AttachAbort(_) => s.replay.Some? && s.replay.value.conn < |s.wires|
    case JournalLost => true
    case Receive(conn, _) => conn < |s.wires| && conn < |s.read| && s.read[conn] < |s.wires[conn]|
  }

  function Push(wires: seq<seq<Envelope>>, conn: nat, e: Envelope): (r: seq<seq<Envelope>>)
    requires conn < |wires|
    ensures |r| == |wires|
  {
    wires[conn := wires[conn] + [e]]
  }

  /** The client's invocation, if it has reached the cursor. */
  function HandleAt(c: Client, id: InvocationId, cursor: nat): (r: Option<nat>) {
    if Known(c, id) && c.remotes[c.invocations[id]].lastSequence >= cursor then Some(c.invocations[id]) else None
  }

  /** An attach can cover an invocation if the journal retains it or the cursor is not behind the pump. */
  predicate Followable(s: System, id: InvocationId, cursor: nat) {
    id in s.logs && id in s.sent && (id in s.journal.invocations || s.sent[id] <= cursor)
  }

  function Follow(s: System, after: Cursors): (r: map<InvocationId, Tracked>) {
    map id | id in after && Followable(s, id, after[id]) :: Tracked(after[id], HandleAt(s.client, id, after[id]))
  }

  function AfterStartTurn(s: System, conn: nat, id: InvocationId): (s': System) {
    var started := Tracked(0, HandleAt(s.client, id, 0));
    var s1 := s.(logs := s.logs[id := []], pumped := s.pumped[id := 0], sent := s.sent[id := 0],
                 stopped := s.stopped - {id}, sink := Some(conn));
    if s.sink == Some(conn) then s1.(tracked := s.tracked[id := started])
    else s1.(tracked := map[id := started], base := if conn < |s.wires| then |s.wires[conn]| else 0)
  }

  function PumpedAfter(pumped: map<InvocationId, nat>, id: InvocationId, outcome: AppendOutcome): (r: map<InvocationId, nat>)
    requires id in pumped
  {
    if outcome.Appended? || outcome.AlreadyPresent? then pumped[id := pumped[id] + 1] else pumped
  }

  function AfterPumpAppend(s: System, id: InvocationId): (s': System)
    requires PumpIdle(s, id) && s.pumped[id] < |s.logs[id]|
  {
    var e := s.logs[id][s.pumped[id]];
    var outcome := RuntimeOutcome(s.journal, e, s.limits.maxInvocations);
    var s1 := s.(journal := RuntimeAfter(s.journal, e, s.limits.maxInvocations, s.limits.maxEvents),
                 history := HistoryAfter(s.history, e, s.limits.maxInvocations));
    s1.(pumped := PumpedAfter(s.pumped, id, outcome),
        stopped := if outcome.Appended? || outcome.AlreadyPresent? then s.stopped else s.stopped + {id})
  }

  function AfterPumpSend(s: System, id: InvocationId, ok: bool, arrived: bool): (s': System)
    requires PumpHolds(s, id) && (s.sink.Some? ==> s.sink.value < |s.wires|)
  {
    var e := s.logs[id][s.sent[id]];
    var s1 := s.(sent := s.sent[id := s.sent[id] + 1]);
    if s.sink.None? then s1
    else if ok then s1.(wires := Push(s.wires, s.sink.value, e))
    else
      var lost := s1.(sink := None, tracked := map[]);
      if arrived then lost.(wires := Push(s.wires, s.sink.value, e)) else lost
  }

  function AfterAttachBegin(s: System, conn: nat, after: Cursors, answer: ReplayResult): (s': System)
    requires conn < |s.wires|
  {
    var s1 := s.(sink := Some(conn), tracked := map[], base := |s.wires[conn]|);
    if answer.Batch? then
      s1.(replay := Some(Replaying(conn, answer.events, |s.wires[conn]|, Follow(s, after), !answer.truncated)))
    else s1
  }

  function AfterAttachEnd(s: System): (s': System)
    requires s.replay.Some?
  {
    var r := s.replay.value;
    var s1 := s.(replay := None);
    if s.sink == Some(r.conn) && s.base == r.base && r.whole then s1.(tracked := r.tracked + s.tracked) else s1
  }

  function AfterAttachAbort(s: System, arrived: bool): (s': System)
    requires s.replay.Some? && s.replay.value.conn < |s.wires|
  {
    var r := s.replay.value;
    var s1 := s.(replay := None, tracked := if s.sink == Some(r.conn) then map[] else s.tracked);
    if arrived && r.queue != [] then s1.(wires := Push(s.wires, r.conn, r.queue[0])) else s1
  }

  ghost function Step(s: System, a: Action): (s': System)
    requires Enabled(s, a)
  {
    match a
    case Connect => s.(wires := s.wires + [[]], read := s.read + [0])
    case ClientStart(id) => s.(client := Register(s.client, id))
    case ClientGiveUp(id, failure) => s.(client := GiveUp(s.client, id, failure))
    case StartTurn(conn, id) => AfterStartTurn(s, conn, id)
    case Emit(id, runtime, now, event) =>
      s.(logs := s.logs[id := s.logs[id] + [Envelope(1, runtime, id, |s.logs[id]| + 1, now, event)]])
    case PumpAppend(id) => AfterPumpAppend(s, id)
    case PumpSend(id, ok, arrived) => AfterPumpSend(s, id, ok, arrived)
    case AttachBegin(conn, after, _, answer) => AfterAttachBegin(s, conn, after, answer)
    case AttachSend =>
      var r := s.replay.value;
      s.(wires := Push(s.wires, r.conn, r.queue[0]), replay := Some(r.(queue := r.queue[1..])))
    case AttachEnd => AfterAttachEnd(s)
    case AttachAbort(arrived) => AfterAttachAbort(s, arrived)
    case JournalLost => s.(journal := EMPTY_RUNTIME, history := EMPTY_HISTORY)
    case Receive(conn, send) =>
      s.(client := Route(s.client, s.wires[conn][s.read[conn]], send), read := s.read[conn := s.read[conn] + 1])
  }

  // ---------------------------------------------------------------------------------------
  // Safety: what every reachable state satisfies, whatever the clock does.

  /** A sink's log is numbered from 1 and nothing follows a terminal event. */
  ghost predicate LogOk(log: seq<Envelope>, id: InvocationId) {
    && Numbered(log, id) && |log| < U64_MAX
    && forall k :: 0 <= k < |log| - 1 ==> !IsTerminal(log[k].event)
  }

  ghost predicate LogsOk(logs: map<InvocationId, seq<Envelope>>) {
    forall id :: id in logs ==> LogOk(logs[id], id)
  }

  predicate Emitted(logs: map<InvocationId, seq<Envelope>>, e: Envelope) {
    e.invocation in logs && 1 <= e.sequence <= |logs[e.invocation]| && logs[e.invocation][e.sequence - 1] == e
  }

  ghost predicate AllEmitted(logs: map<InvocationId, seq<Envelope>>, frames: seq<Envelope>) {
    forall i :: 0 <= i < |frames| ==> Emitted(logs, frames[i])
  }

  ghost predicate WiresEmitted(logs: map<InvocationId, seq<Envelope>>, wires: seq<seq<Envelope>>) {
    forall c :: 0 <= c < |wires| ==> AllEmitted(logs, wires[c])
  }

  predicate PumpOk(logs: map<InvocationId, seq<Envelope>>, pumped: map<InvocationId, nat>, sent: map<InvocationId, nat>, id: InvocationId) {
    id in logs && id in pumped && id in sent && sent[id] <= pumped[id] <= sent[id] + 1 && pumped[id] <= |logs[id]|
  }

  ghost predicate PumpsOk(logs: map<InvocationId, seq<Envelope>>, pumped: map<InvocationId, nat>, sent: map<InvocationId, nat>) {
    && logs.Keys == pumped.Keys == sent.Keys
    && forall id :: id in logs ==> PumpOk(logs, pumped, sent, id)
  }

  /** For a retained invocation the journal's history is what the pump has appended. */
  predicate AppendedOk(history: History, logs: map<InvocationId, seq<Envelope>>, pumped: map<InvocationId, nat>, id: InvocationId) {
    && id in history.logs && id in logs && id in pumped
    && pumped[id] <= |logs[id]| && history.logs[id] == logs[id][..pumped[id]]
  }

  ghost predicate RetainedOk(journal: RuntimeJournal, history: History, logs: map<InvocationId, seq<Envelope>>, pumped: map<InvocationId, nat>) {
    forall id :: id in journal.invocations ==> AppendedOk(history, logs, pumped, id)
  }

  ghost predicate JournalOk(journal: RuntimeJournal, history: History, logs: map<InvocationId, seq<Envelope>>, pumped: map<InvocationId, nat>, limits: Limits) {
    && LimitsOk(limits)
    && Refines(journal, history, limits.maxInvocations, limits.maxEvents)
    && RetainedOk(journal, history, logs, pumped)
  }

  /** What reached an invocation's channel is the log up to its cursor; a success is the whole log. */
  predicate RemoteOk(logs: map<InvocationId, seq<Envelope>>, r: Remote) {
    var log := if r.id in logs then logs[r.id] else [];
    && r.lastSequence <= |log| && r.delivered == log[..r.lastSequence]
    && (r.completion.Some? && r.completion.value.Ok? ==>
          r.lastSequence == |log| > 0 && log[|log| - 1].event == InvocationCompleted(r.completion.value.result))
  }

  ghost predicate RemotesOk(logs: map<InvocationId, seq<Envelope>>, remotes: seq<Remote>) {
    forall h :: 0 <= h < |remotes| ==> RemoteOk(logs, remotes[h])
  }

  ghost predicate CarrierOk(wires: seq<seq<Envelope>>, read: seq<nat>, sink: Option<nat>) {
    && |read| == |wires|
    && (forall c :: 0 <= c < |read| ==> read[c] <= |wires[c]|)
    && (sink.Some? ==> sink.value < |wires|)
  }

  ghost predicate ReplayOk(logs: map<InvocationId, seq<Envelope>>, wires: seq<seq<Envelope>>, replay: Option<Replaying>) {
    replay.Some? ==> replay.value.conn < |wires| && AllEmitted(logs, replay.value.queue)
  }

  ghost predicate Safe(s: System) {
    && LogsOk(s.logs)
    && PumpsOk(s.logs, s.pumped, s.sent)
    && JournalOk(s.journal, s.history, s.logs, s.pumped, s.limits)
    && WiresEmitted(s.logs, s.wires)
    && CarrierOk(s.wires, s.read, s.sink)
    && ReplayOk(s.logs, s.wires, s.replay)
    && ClientOk(s.client)
    && RemotesOk(s.logs, s.client.remotes)
  }

  // --- logs only grow ---

  ghost predicate Extends(logs: map<InvocationId, seq<Envelope>>, logs': map<InvocationId, seq<Envelope>>) {
    forall id :: id in logs ==> id in logs' && logs[id] <= logs'[id]
  }

  lemma EmittedStays(logs: map<InvocationId, seq<Envelope>>, logs': map<InvocationId, seq<Envelope>>, frames: seq<Envelope>)
    requires Extends(logs, logs') && AllEmitted(logs, frames)
    ensures AllEmitted(logs', frames)
  {
    forall i | 0 <= i < |frames|
      ensures Emitted(logs', frames[i])
    {
      assert Emitted(logs, frames[i]);
    }
  }

  lemma WiresStay(logs: map<InvocationId, seq<Envelope>>, logs': map<InvocationId, seq<Envelope>>, wires: seq<seq<Envelope>>)
    requires Extends(logs, logs') && WiresEmitted(logs, wires)
    ensures WiresEmitted(logs', wires)
  {
    forall c | 0 <= c < |wires|
      ensures AllEmitted(logs', wires[c])
    {
      EmittedStays(logs, logs', wires[c]);
    }
  }

  lemma PushEmitted(logs: map<InvocationId, seq<Envelope>>, wires: seq<seq<Envelope>>, conn: nat, e: Envelope)
    requires WiresEmitted(logs, wires) && conn < |wires| && Emitted(logs, e)
    ensures WiresEmitted(logs, Push(wires, conn, e))
  {
    forall c | 0 <= c < |wires|
      ensures AllEmitted(logs, Push(wires, conn, e)[c])
    {
      assert AllEmitted(logs, wires[c]);
    }
  }

  lemma LogOfNext(logs: map<InvocationId, seq<Envelope>>, id: InvocationId, k: nat)
    requires LogsOk(logs) && id in logs && k < |logs[id]|
    ensures Emitted(logs, logs[id][k])
  {
    assert LogOk(logs[id], id);
  }

  // --- Emit and StartTurn ---

  lemma EmitKeepsLogs(log: seq<Envelope>, id: InvocationId, e: Envelope)
    requires LogOk(log, id) && !Ended(log) && |log| + 1 < U64_MAX
    requires e.invocation == id && e.sequence == |log| + 1
    ensures LogOk(log + [e], id)
  {
  }

  /** A log that may still grow has no success recorded against it. */
  lemma GrowthKeepsRemotes(logs: map<InvocationId, seq<Envelope>>, id: InvocationId, log: seq<Envelope>, remotes: seq<Remote>)
    requires RemotesOk(logs, remotes)
    requires if id in logs then logs[id] <= log && !Ended(logs[id]) else log == []
    ensures RemotesOk(logs[id := log], remotes)
  {
    forall h | 0 <= h < |remotes|
      ensures RemoteOk(logs[id := log], remotes[h])
    {
      assert RemoteOk(logs, remotes[h]);
    }
  }

  lemma GrowthKeepsRetained(journal: RuntimeJournal, history: History, logs: map<InvocationId, seq<Envelope>>,
    pumped: map<InvocationId, nat>, id: InvocationId, log: seq<Envelope>, p: nat)
    requires RetainedOk(journal, history, logs, pumped)
    requires id in logs && id in pumped ==> logs[id] <= log && pumped[id] == p
    ensures RetainedOk(journal, history, logs[id := log], pumped[id := p])
  {
    forall other | other in journal.invocations
      ensures AppendedOk(history, logs[id := log], pumped[id := p], other)
    {
      assert AppendedOk(history, logs, pumped, other);
    }
  }

  lemma PumpsAfter(logs: map<InvocationId, seq<Envelope>>, pumped: map<InvocationId, nat>, sent: map<InvocationId, nat>,
    id: InvocationId, log: seq<Envelope>, p: nat, n: nat)
    requires PumpsOk(logs, pumped, sent) && n <= p <= n + 1 && p <= |log|
    ensures PumpsOk(logs[id := log], pumped[id := p], sent[id := n])
  {
    var logs' := logs[id := log];
    forall other | other in logs'
      ensures PumpOk(logs', pumped[id := p], sent[id := n], other)
    {
      assert other != id ==> PumpOk(logs, pumped, sent, other);
    }
    assert logs'.Keys == logs.Keys + {id};
    assert pumped[id := p].Keys == pumped.Keys + {id};
    assert sent[id := n].Keys == sent.Keys + {id};
  }

  lemma EmitKeepsSafe(s: System, a: Action)
    requires Safe(s) && a.Emit? && Enabled(s, a)
    ensures Safe(Step(s, a))
  {
    hide RemotesOk;
    hide WiresEmitted;
    hide RetainedOk;
    hide ClientOk;
    hide Refines;
    var s' := Step(s, a);
    var id := a.id;
    assert LogOk(s.logs[id], id);
    EmitKeepsLogs(s.logs[id], id, s'.logs[id][|s.logs[id]|]);
    assert s.logs[id] <= s'.logs[id];
    WiresStay(s.logs, s'.logs, s.wires);
    if s.replay.Some? {
      EmittedStays(s.logs, s'.logs, s.replay.value.queue);
    }
    GrowthKeepsRemotes(s.logs, id, s'.logs[id], s.client.remotes);
    assert PumpOk(s.logs, s.pumped, s.sent, id);
    PumpsAfter(s.logs, s.pumped, s.sent, id, s'.logs[id], s.pumped[id], s.sent[id]);
    GrowthKeepsRetained(s.journal, s.history, s.logs, s.pumped, id, s'.logs[id], s.pumped[id]);
    assert s.pumped[id := s.pumped[id]] == s.pumped && s.sent[id := s.sent[id]] == s.sent;
  }

  lemma StartKeepsSafe(s: System, a: Action)
    requires Safe(s) && a.StartTurn? && Enabled(s, a)
    ensures Safe(Step(s, a))
  {
    hide RemotesOk;
    hide WiresEmitted;
    hide RetainedOk;
    hide ClientOk;
    hide Refines;
    var s' := Step(s, a);
    var id := a.id;
    WiresStay(s.logs, s'.logs, s.wires);
    if s.replay.Some? {
      EmittedStays(s.logs, s'.logs, s.replay.value.queue);
    }
    GrowthKeepsRemotes(s.logs, id, [], s.client.remotes);
    GrowthKeepsRetained(s.journal, s.history, s.logs, s.pumped, id, [], 0);
    PumpsAfter(s.logs, s.pumped, s.sent, id, [], 0, 0);
  }

  // --- the pump ---

  /** The next event of a retained invocation extends its history. */
  lemma AppendedToKnown(journal: RuntimeJournal, history: History, logs: map<InvocationId, seq<Envelope>>,
    pumped: map<InvocationId, nat>, id: InvocationId, w: Window)
    requires RetainedOk(journal, history, logs, pumped) && id in journal.invocations
    requires id in logs && id in pumped && pumped[id] < |logs[id]| && id in history.logs
    ensures RetainedOk(SetWindow(journal, id, w),
                       history.(logs := history.logs[id := history.logs[id] + [logs[id][pumped[id]]]]),
                       logs, pumped[id := pumped[id] + 1])
  {
    var history' := history.(logs := history.logs[id := history.logs[id] + [logs[id][pumped[id]]]]);
    forall other | other in SetWindow(journal, id, w).invocations
      ensures AppendedOk(history', logs, pumped[id := pumped[id] + 1], other)
    {
      assert AppendedOk(history, logs, pumped, other);
    }
  }

  /** The first event of a new invocation starts its history. */
  lemma AppendedToNew(journal: RuntimeJournal, journal': RuntimeJournal, history: History, created: seq<InvocationId>,
    logs: map<InvocationId, seq<Envelope>>, pumped: map<InvocationId, nat>, id: InvocationId)
    requires RetainedOk(journal, history, logs, pumped)
    requires forall other :: other in journal'.invocations && other != id ==> other in journal.invocations
    requires id in logs && id in pumped && pumped[id] == 0 < |logs[id]|
    ensures RetainedOk(journal', History(created, history.logs[id := [logs[id][0]]]), logs, pumped[id := 1])
  {
    forall other | other in journal'.invocations
      ensures AppendedOk(History(created, history.logs[id := [logs[id][0]]]), logs, pumped[id := 1], other)
    {
      assert other != id ==> AppendedOk(history, logs, pumped, other);
    }
  }

  lemma KnownKeepsRetained(journal: RuntimeJournal, history: History, logs: map<InvocationId, seq<Envelope>>,
    pumped: map<InvocationId, nat>, limits: Limits, id: InvocationId, e: Envelope)
    requires LimitsOk(limits) && Refines(journal, history, limits.maxInvocations, limits.maxEvents)
    requires RetainedOk(journal, history, logs, pumped)
    requires id in logs && id in pumped && pumped[id] < |logs[id]| && logs[id][pumped[id]] == e
    requires e.invocation == id && e.sequence == pumped[id] + 1 < U64_MAX
    requires id in journal.invocations && id !in journal.evicted
    ensures RetainedOk(RuntimeAfter(journal, e, limits.maxInvocations, limits.maxEvents),
                       HistoryAfter(history, e, limits.maxInvocations), logs,
                       PumpedAfter(pumped, id, RuntimeOutcome(journal, e, limits.maxInvocations)))
  {
    MembershipMeaning(journal, history, limits.maxInvocations, limits.maxEvents, id);
    KnownAfter(journal, history, e, limits.maxInvocations, limits.maxEvents);
    hide Refines;
    hide WindowOutcome;
    hide WindowAfter;
    assert AppendedOk(history, logs, pumped, id);
    AppendedToKnown(journal, history, logs, pumped, id, WindowAfter(journal.invocations[id], e, limits.maxEvents));
  }

  lemma NewKeepsRetained(journal: RuntimeJournal, history: History, logs: map<InvocationId, seq<Envelope>>,
    pumped: map<InvocationId, nat>, limits: Limits, id: InvocationId, e: Envelope)
    requires LimitsOk(limits) && Refines(journal, history, limits.maxInvocations, limits.maxEvents)
    requires RetainedOk(journal, history, logs, pumped)
    requires id in logs && id in pumped && pumped[id] < |logs[id]| && logs[id][pumped[id]] == e
    requires e.invocation == id && e.sequence == pumped[id] + 1 == 1
    requires Agree(journal) && id !in journal.invocations && id !in journal.evicted
    ensures RetainedOk(RuntimeAfter(journal, e, limits.maxInvocations, limits.maxEvents),
                       HistoryAfter(history, e, limits.maxInvocations), logs,
                       PumpedAfter(pumped, id, RuntimeOutcome(journal, e, limits.maxInvocations)))
  {
    hide Refines;
    hide Agree;
    hide RuntimeAfter;
    hide RuntimeOutcome;
    hide Live;
    hide Gone;
    NewBringsOnlyItself(journal, e, limits.maxInvocations, limits.maxEvents);
    MembershipMeaning(journal, history, limits.maxInvocations, limits.maxEvents, id);
    NewAfter(journal, history, e, limits.maxInvocations, limits.maxEvents);
    AppendedToNew(journal, RuntimeAfter(journal, e, limits.maxInvocations, limits.maxEvents), history,
                  history.created + [id], logs, pumped, id);
  }

  lemma AppendKeepsRetained(journal: RuntimeJournal, history: History, logs: map<InvocationId, seq<Envelope>>,
    pumped: map<InvocationId, nat>, limits: Limits, id: InvocationId, e: Envelope)
    requires LimitsOk(limits) && Refines(journal, history, limits.maxInvocations, limits.maxEvents)
    requires RetainedOk(journal, history, logs, pumped)
    requires id in logs && id in pumped && pumped[id] < |logs[id]| && logs[id][pumped[id]] == e
    requires e.invocation == id && e.sequence == pumped[id] + 1 < U64_MAX
    ensures RetainedOk(RuntimeAfter(journal, e, limits.maxInvocations, limits.maxEvents),
                       HistoryAfter(history, e, limits.maxInvocations), logs,
                       PumpedAfter(pumped, id, RuntimeOutcome(journal, e, limits.maxInvocations)))
  {
    assert Agree(journal);
    hide Refines;
    hide WindowAfter;
    hide Admit;
    MembershipMeaning(journal, history, limits.maxInvocations, limits.maxEvents, id);
    if id in journal.evicted {
    } else if id in journal.invocations {
      KnownKeepsRetained(journal, history, logs, pumped, limits, id, e);
    } else if e.sequence == 1 {
      NewKeepsRetained(journal, history, logs, pumped, limits, id, e);
    }
  }

  lemma AppendKeepsJournal(s: System, id: InvocationId)
    requires LogsOk(s.logs) && JournalOk(s.journal, s.history, s.logs, s.pumped, s.limits)
    requires PumpIdle(s, id) && s.pumped[id] < |s.logs[id]|
    ensures var s' := AfterPumpAppend(s, id); JournalOk(s'.journal, s'.history, s.logs, s'.pumped, s.limits)
  {
    var e := s.logs[id][s.pumped[id]];
    assert LogOk(s.logs[id], id);
    RuntimeRefines(s.journal, s.history, e, s.limits.maxInvocations, s.limits.maxEvents);
    AppendKeepsRetained(s.journal, s.history, s.logs, s.pumped, s.limits, id, e);
  }

  lemma PumpAppendKeepsSafe(s: System, id: InvocationId)
    requires Safe(s) && Enabled(s, PumpAppend(id))
    ensures Safe(AfterPumpAppend(s, id))
  {
    hide RemotesOk;
    hide ClientOk;
    hide WiresEmitted;
    hide JournalOk;
    hide RuntimeAfter;
    hide HistoryAfter;
    hide RuntimeOutcome;
    var s' := AfterPumpAppend(s, id);
    AppendKeepsJournal(s, id);
    PumpsAfter(s.logs, s.pumped, s.sent, id, s.logs[id], s'.pumped[id], s.sent[id]);
    assert s.logs[id := s.logs[id]] == s.logs && s.sent[id := s.sent[id]] == s.sent;
    assert s'.pumped == s.pumped[id := s'.pumped[id]];
  }

  lemma PumpSendKeepsSafe(s: System, id: InvocationId, ok: bool, arrived: bool)
    requires Safe(s) && Enabled(s, PumpSend(id, ok, arrived))
    ensures Safe(AfterPumpSend(s, id, ok, arrived))
  {
    hide RemotesOk;
    hide ClientOk;
    hide JournalOk;
    PumpsAfter(s.logs, s.pumped, s.sent, id, s.logs[id], s.pumped[id], s.sent[id] + 1);
    assert s.logs[id := s.logs[id]] == s.logs && s.pumped[id := s.pumped[id]] == s.pumped;
    LogOfNext(s.logs, id, s.sent[id]);
    if s.sink.Some? {
      PushEmitted(s.logs, s.wires, s.sink.value, s.logs[id][s.sent[id]]);
    }
  }

  // --- attach ---

  lemma WindowHoldsAppended(w: Window, id: InvocationId, history: History, logs: map<InvocationId, seq<Envelope>>,
    pumped: map<InvocationId, nat>, maxEvents: nat, e: Envelope)
    requires WindowOk(w, id, history.logs, maxEvents) && AppendedOk(history, logs, pumped, id) && e in w.events
    ensures e.invocation == id && 1 <= e.sequence <= pumped[id] && Emitted(logs, e)
  {
    var i :| 0 <= i < |w.events| && w.events[i] == e;
    var k := |history.logs[id]| - |w.events| + i;
    assert history.logs[id][k] == e;
    assert logs[id][k] == e;
  }

  /** What the journal retains was emitted, and appended by its pump. */
  lemma RetainedMeaning(s: System, only: Option<set<InvocationId>>, e: Envelope)
    requires Safe(s) && e in Pool(s.journal.invocations, only)
    ensures Emitted(s.logs, e) && e.invocation in s.journal.invocations && Picked(only, e.invocation)
    ensures e.invocation in s.pumped && e.sequence <= s.pumped[e.invocation] <= |s.logs[e.invocation]|
  {
    hide Agree;
    hide QueuesAreTail;
    hide Spaced;
    var id :| id in s.journal.invocations && e in s.journal.invocations[id].events && Picked(only, id);
    assert WindowOk(s.journal.invocations[id], id, s.history.logs, s.limits.maxEvents);
    assert AppendedOk(s.history, s.logs, s.pumped, id);
    WindowHoldsAppended(s.journal.invocations[id], id, s.history, s.logs, s.pumped, s.limits.maxEvents, e);
  }

  lemma BatchEmitted(s: System, after: Cursors, limit: nat, answer: ReplayResult)
    requires Safe(s) && JournalAnswers(s, after, limit, answer) && answer.Batch?
    ensures AllEmitted(s.logs, answer.events)
  {
    var pool := Pool(s.journal.invocations, Some(after.Keys));
    SubsetDistinct(Pending(pool, after), pool);
    var q := Arrange(Pending(pool, after));
    forall i | 0 <= i < |answer.events|
      ensures Emitted(s.logs, answer.events[i])
    {
      assert answer.events[i] == q[i];
      assert q[i] in Elements(q);
      RetainedMeaning(s, Some(after.Keys), q[i]);
    }
  }

  lemma AttachKeepsSafe(s: System, a: Action)
    requires Safe(s) && a.AttachBegin? && Enabled(s, a)
    ensures Safe(Step(s, a))
  {
    if a.answer.Batch? {
      BatchEmitted(s, a.after, a.limit, a.answer);
    }
    hide JournalOk;
    hide JournalAnswers;
    hide RemotesOk;
    hide Follow;
  }

  lemma NextReplayed(logs: map<InvocationId, seq<Envelope>>, wires: seq<seq<Envelope>>, conn: nat, queue: seq<Envelope>)
    requires WiresEmitted(logs, wires) && AllEmitted(logs, queue) && conn < |wires| && queue != []
    ensures WiresEmitted(logs, Push(wires, conn, queue[0])) && AllEmitted(logs, queue[1..])
  {
    assert Emitted(logs, queue[0]);
    PushEmitted(logs, wires, conn, queue[0]);
  }

  lemma PushKeepsCarrier(wires: seq<seq<Envelope>>, read: seq<nat>, sink: Option<nat>, conn: nat, e: Envelope)
    requires CarrierOk(wires, read, sink) && conn < |wires|
    ensures CarrierOk(Push(wires, conn, e), read, sink)
  {
  }

  lemma ReplayKeepsSafe(s: System, a: Action)
    requires Safe(s) && (a.AttachSend? || a.AttachEnd? || a.AttachAbort?) && Enabled(s, a)
    ensures Safe(Step(s, a))
  {
    hide JournalOk;
    hide RemotesOk;
    hide PumpsOk;
    hide ClientOk;
    hide LogsOk;
    hide WiresEmitted;
    hide AllEmitted;
    hide CarrierOk;
    hide Push;
    var r := s.replay.value;
    if r.queue != [] {
      NextReplayed(s.logs, s.wires, r.conn, r.queue);
      PushKeepsCarrier(s.wires, s.read, s.sink, r.conn, r.queue[0]);
    }
  }

  // --- the client ---

  lemma RouteKeepsRemotes(logs: map<InvocationId, seq<Envelope>>, c: Client, e: Envelope, send: SendOutcome)
    requires LogsOk(logs) && ClientOk(c) && RemotesOk(logs, c.remotes) && Emitted(logs, e)
    ensures RemotesOk(logs, Route(c, e, send).remotes)
  {
    if Classify(c, e).Next? {
      var h := c.invocations[e.invocation];
      assert RegisteredOk(c, e.invocation) && RemoteOk(logs, c.remotes[h]) && LogOk(logs[e.invocation], e.invocation);
      var log := logs[e.invocation];
      assert log[..e.sequence] == log[..e.sequence - 1] + [e];
      assert RemoteOk(logs, Route(c, e, send).remotes[h]);
    }
  }

  lemma ReceiveKeepsSafe(s: System, a: Action)
    requires Safe(s) && a.Receive? && Enabled(s, a)
    ensures Safe(Step(s, a))
  {
    var e := s.wires[a.conn][s.read[a.conn]];
    assert AllEmitted(s.logs, s.wires[a.conn]);
    assert Emitted(s.logs, e);
    RouteKeepsOk(s.client, e, a.send);
    RouteKeepsRemotes(s.logs, s.client, e, a.send);
  }

  lemma ClientKeepsSafe(s: System, a: Action)
    requires Safe(s) && (a.ClientStart? || a.ClientGiveUp?) && Enabled(s, a)
    ensures Safe(Step(s, a))
  {
    var c' := Step(s, a).client;
    if a.ClientStart? {
      RegisterKeepsOk(s.client, a.id);
    } else {
      GiveUpKeepsOk(s.client, a.id, a.failure);
    }
    forall h | 0 <= h < |c'.remotes|
      ensures RemoteOk(s.logs, c'.remotes[h])
    {
      assert h < |s.client.remotes| ==> RemoteOk(s.logs, s.client.remotes[h]);
      assert Known(s.client, a.id) ==> RegisteredOk(s.client, a.id);
    }
  }

  // --- every run ---

  lemma StepKeepsSafe(s: System, a: Action)
    requires Safe(s) && Enabled(s, a)
    ensures Safe(Step(s, a))
  {
    match a {
      case Emit(_, _, _, _) => EmitKeepsSafe(s, a);
      case StartTurn(_, _) => StartKeepsSafe(s, a);
      case PumpAppend(id) => PumpAppendKeepsSafe(s, id);
      case PumpSend(id, ok, arrived) => PumpSendKeepsSafe(s, id, ok, arrived);
      case AttachBegin(_, _, _, _) => AttachKeepsSafe(s, a);
      case AttachSend => ReplayKeepsSafe(s, a);
      case AttachEnd => ReplayKeepsSafe(s, a);
      case AttachAbort(_) => ReplayKeepsSafe(s, a);
      case Receive(_, _) => ReceiveKeepsSafe(s, a);
      case ClientStart(_) => ClientKeepsSafe(s, a);
      case ClientGiveUp(_, _) => ClientKeepsSafe(s, a);
      case JournalLost => EmptyRefines(s.limits.maxInvocations, s.limits.maxEvents);
      case Connect =>
    }
  }

  /** The state after a run from a given state, if every action was possible. */
  ghost function RunFrom(start: System, actions: seq<Action>): (r: Option<System>) {
    if actions == [] then Some(start)
    else
      var before := RunFrom(start, actions[..|actions| - 1]);
      if before.Some? && Enabled(before.value, actions[|actions| - 1])
      then Some(Step(before.value, actions[|actions| - 1]))
      else None
  }

  ghost function Run(limits: Limits, actions: seq<Action>): (r: Option<System>) {
    RunFrom(Start(limits), actions)
  }

  ghost predicate Reaches(limits: Limits, actions: seq<Action>, s: System) {
    LimitsOk(limits) && Run(limits, actions) == Some(s)
  }

  lemma StartIsSafe(limits: Limits)
    requires LimitsOk(limits)
    ensures Safe(Start(limits))
  {
    EmptyRefines(limits.maxInvocations, limits.maxEvents);
  }

  lemma {:induction false} RunKeepsSafe(limits: Limits, actions: seq<Action>, s: System)
    requires Reaches(limits, actions, s)
    ensures Safe(s)
    decreases |actions|
  {
    if actions == [] {
      StartIsSafe(limits);
    } else {
      var before := Run(limits, actions[..|actions| - 1]).value;
      RunKeepsSafe(limits, actions[..|actions| - 1], before);
      StepKeepsSafe(before, actions[|actions| - 1]);
    }
  }

  /** Whatever was lost, replayed, repeated or raced: each client invocation has received exactly the
      host's events from the first to its cursor, each once and in order. */
  lemma ClientSeesThePrefix(limits: Limits, actions: seq<Action>, s: System, h: nat)
    requires Reaches(limits, actions, s) && h < |s.client.remotes|
    ensures var r := s.client.remotes[h];
            var log := if r.id in s.logs then s.logs[r.id] else [];
            r.lastSequence <= |log| && r.delivered == log[..r.lastSequence]
  {
    RunKeepsSafe(limits, actions, s);
    assert RemoteOk(s.logs, s.client.remotes[h]);
  }

  /** A turn that completed successfully hides nothing: its channel holds the host's whole log, which
      ends with that very result and will not grow. */
  lemma SuccessHidesNothing(limits: Limits, actions: seq<Action>, s: System, h: nat)
    requires Reaches(limits, actions, s) && h < |s.client.remotes|
    requires s.client.remotes[h].completion.Some? && s.client.remotes[h].completion.value.Ok?
    ensures var r := s.client.remotes[h];
            && r.id in s.logs && r.delivered == s.logs[r.id] && Ended(s.logs[r.id])
            && r.delivered[|r.delivered| - 1].event == InvocationCompleted(r.completion.value.result)
  {
    RunKeepsSafe(limits, actions, s);
    assert RemoteOk(s.logs, s.client.remotes[h]);
  }

  lemma StepFreezes(s: System, a: Action, h: nat)
    requires Safe(s) && Enabled(s, a) && h < |s.client.remotes| && s.client.remotes[h].completion.Some?
    ensures h < |Step(s, a).client.remotes| && Step(s, a).client.remotes[h] == s.client.remotes[h]
  {
    hide JournalOk;
    hide RemotesOk;
    hide WiresEmitted;
    hide PumpsOk;
    match a {
      case Receive(conn, send) => CompletedIsFrozen(s.client, h, s.wires[conn][s.read[conn]], send, 0, None);
      case ClientStart(id) => CompletedIsFrozen(s.client, h, Envelope(1, 0, id, 0, 0, InvocationStarted), Closed, id, None);
      case ClientGiveUp(id, failure) => CompletedIsFrozen(s.client, h, Envelope(1, 0, id, 0, 0, InvocationStarted), Closed, id, failure);
      case _ =>
    }
  }

  /** A completed invocation never changes again, so each completes at most once. */
  lemma {:induction false} CompletesOnce(limits: Limits, actions: seq<Action>, more: seq<Action>, s: System, s': System, h: nat)
    requires Reaches(limits, actions, s) && Reaches(limits, actions + more, s')
    requires h < |s.client.remotes| && s.client.remotes[h].completion.Some?
    ensures h < |s'.client.remotes| && s'.client.remotes[h] == s.client.remotes[h]
    decreases |more|
  {
    if more == [] {
      assert actions + more == actions;
    } else {
      var most := more[..|more| - 1];
      assert (actions + more)[..|actions + more| - 1] == actions + most;
      var before := Run(limits, actions + most).value;
      CompletesOnce(limits, actions, most, s, before, h);
      RunKeepsSafe(limits, actions + most, before);
      StepFreezes(before, more[|more| - 1], h);
    }
  }
}
