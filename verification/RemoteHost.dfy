/** The host's side of the pipeline as it runs: pump, live send and attach, changing the host in place.

    Each method is one step of `Pipeline`. A send's fate is a parameter: whether it was confirmed, and whether
    the frame reached the carrier although it was not. */
module RemoteHost {
  import opened Basics
  import opened Events
  import opened Journal
  import opened JournalHistory
  import opened Replay
  import opened JournalStore
  import opened RemoteClient
  import opened Pipeline

  /** The journal's answer for exactly the cursored invocations; a safe system always gets one. */
  method AskJournal(journal: RuntimeJournal, limits: Limits, after: Cursors, limit: nat, ghost s: System) returns (answer: ReplayResult)
    requires Safe(s) && s.journal == journal && s.limits == limits
    ensures JournalAnswers(s, after, limit, answer)
  {
    if limit == 0 || limit > limits.maxReplay {
      return InvalidReplayLimit(limits.maxReplay, limit);
    }
    RefinesTidy(s.journal, s.history, s.limits.maxInvocations, s.limits.maxEvents);
    answer := ReplayRuntime(journal, after, Some(after.Keys), limit);
  }

  /** The rest of the system, and what is followed in it. */
  datatype Rest = Rest(
    history: History,
    read: seq<nat>,
    client: Client,
    base: nat,
    tracked: map<InvocationId, Tracked>,
    attachBase: nat,
    attachTracked: map<InvocationId, Tracked>)

  class RemoteRuntimeHost {
    const limits: Limits
    var logs: map<InvocationId, seq<Envelope>>
    var pumped: map<InvocationId, nat>
    var sent: map<InvocationId, nat>
    var stopped: set<InvocationId>
    var journal: RuntimeJournal
    var wires: seq<seq<Envelope>>
    var liveSink: Option<nat>
    // the attach that holds the delivery gate, and what it still has to send
    var attaching: Option<nat>
    var queue: seq<Envelope>
    var truncated: bool
    ghost var rest: Rest

    ghost function View(): (s: System)
      reads this
    {
      System(limits, logs, pumped, sent, stopped, journal, rest.history, wires, rest.read, liveSink,
             if attaching.Some? then Some(Replaying(attaching.value, queue, rest.attachBase, rest.attachTracked, !truncated)) else None,
             rest.base, rest.tracked, rest.client)
    }

    constructor (limits: Limits)
      ensures View() == Start(limits)
    {
      this.limits := limits;
      logs, pumped, sent, stopped := map[], map[], map[], {};
      journal, wires, liveSink := EMPTY_RUNTIME, [], None;
      attaching, queue, truncated := None, [], false;
      rest := Rest(EMPTY_HISTORY, [], Client(map[], [], 0), 0, map[], 0, map[]);
    }

    /** A started turn makes its connection the live one, whether or not an attach holds the gate. */
    method StartTurn(conn: nat, id: InvocationId)
      requires conn < |wires| && id !in logs
      modifies this
      ensures View() == AfterStartTurn(old(View()), conn, id)
    {
      hide HandleAt;
      ghost var started := Tracked(0, HandleAt(rest.client, id, 0));
      rest := if liveSink == Some(conn) then rest.(tracked := rest.tracked[id := started])
              else rest.(tracked := map[id := started], base := |wires[conn]|);
      logs, pumped, sent, stopped := logs[id := []], pumped[id := 0], sent[id := 0], stopped - {id};
      liveSink := Some(conn);
    }

    /** The pump appends its next event, and stops when the journal refuses it. */
    method AppendNext(id: InvocationId)
      requires PumpIdle(View(), id) && pumped[id] < |logs[id]|
      modifies this
      ensures View() == AfterPumpAppend(old(View()), id)
    {
      hide RuntimeOutcome;
      hide RuntimeAfter;
      hide HistoryAfter;
      var e := logs[id][pumped[id]];
      var outcome;
      journal, outcome := AppendToRuntime(journal, e, limits.maxInvocations, limits.maxEvents);
      rest := rest.(history := HistoryAfter(rest.history, e, limits.maxInvocations));
      if outcome.Appended? || outcome.AlreadyPresent? {
        pumped := pumped[id := pumped[id] + 1];
      } else {
        stopped := stopped + {id};
      }
    }

    /** The appended event goes to the live connection, if there is one; an unconfirmed send removes it. */
    method SendLive(id: InvocationId, ok: bool, arrived: bool)
      requires PumpHolds(View(), id) && attaching.None? && (liveSink.Some? ==> liveSink.value < |wires|)
      modifies this
      ensures View() == AfterPumpSend(old(View()), id, ok, arrived)
    {
      var e := logs[id][sent[id]];
      sent := sent[id := sent[id] + 1];
      if liveSink.None? {
        return;
      }
      var conn := liveSink.value;
      if ok || arrived {
        wires := wires[conn := wires[conn] + [e]];
      }
      if !ok {
        liveSink, rest := None, rest.(tracked := map[]);
      }
    }

    /** An attach takes the gate and the live connection, then asks the journal: the step is always possible. */
    method Attach(conn: nat, after: Cursors, limit: nat) returns (answer: ReplayResult)
      requires Safe(View()) && conn < |wires| && attaching.None?
      modifies this
      ensures JournalAnswers(old(View()), after, limit, answer)
      ensures View() == AfterAttachBegin(old(View()), conn, after, answer)
    {
      hide Safe;
      hide Follow;
      hide JournalAnswers;
      ghost var s := View();
      answer := AskJournal(journal, limits, after, limit, s);
      liveSink, rest := Some(conn), rest.(tracked := map[], base := |wires[conn]|);
      if answer.Batch? {
        attaching, queue, truncated := Some(conn), answer.events, answer.truncated;
        rest := rest.(attachBase := |wires[conn]|, attachTracked := Follow(s, after));
      }
    }

    method SendReplayed()
      requires attaching.Some? && attaching.value < |wires| && queue != []
      modifies this
      ensures Enabled(old(View()), AttachSend) && View() == Step(old(View()), AttachSend)
    {
      var conn := attaching.value;
      wires := wires[conn := wires[conn] + [queue[0]]];
      queue := queue[1..];
    }

    /** The replay is complete and the gate is released. */
    method FinishReplay()
      requires attaching.Some? && queue == []
      modifies this
      ensures View() == AfterAttachEnd(old(View()))
    {
      if liveSink == attaching && rest.base == rest.attachBase && !truncated {
        rest := rest.(tracked := rest.attachTracked + rest.tracked);
      }
      attaching := None;
    }

    /** Sending the replay failed; the gate is released and the live connection stays as it is. */
    method AbortReplay(arrived: bool)
      requires attaching.Some? && attaching.value < |wires|
      modifies this
      ensures View() == AfterAttachAbort(old(View()), arrived)
    {
      var conn := attaching.value;
      if liveSink == attaching {
        rest := rest.(tracked := map[]);
      }
      if arrived && queue != [] {
        wires := wires[conn := wires[conn] + [queue[0]]];
      }
      attaching := None;
    }

    /** The journal drops its oldest runtime to make room for another. */
    method ForgetJournal()
      modifies this
      ensures View() == Step(old(View()), JournalLost)
    {
      journal, rest := EMPTY_RUNTIME, rest.(history := EMPTY_HISTORY);
    }
  }
}
