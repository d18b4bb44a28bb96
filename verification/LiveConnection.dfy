/** Which connection is live, what was sent, and which invocations are followed on it: from the steps taken. */
module LiveConnection {
  import opened Basics
  import opened Events
  import opened RecentWindow
  import opened Journal
  import opened JournalHistory
  import opened Replay
  import opened JournalStore
  import opened RemoteClient
  import opened Pipeline
  import opened LiveDelivery

  /** The connection that started a turn or attached last, unless a send has failed since. */
  function LiveOf(actions: seq<Action>): (conn: Option<nat>) {
    if actions == [] then None
    else
      match actions[|actions| - 1]
      case StartTurn(conn, _) => Some(conn)
      case AttachBegin(conn, _, _, _) => Some(conn)
      case PumpSend(_, ok, _) => if ok then LiveOf(actions[..|actions| - 1]) else None
      case _ => LiveOf(actions[..|actions| - 1])
  }

  /** How often the pump of this invocation went on to its next event. */
  function SendsOf(actions: seq<Action>, id: InvocationId): (n: nat) {
    if actions == [] then 0
    else
      var a := actions[|actions| - 1];
      SendsOf(actions[..|actions| - 1], id) + if a.PumpSend? && a.id == id then 1 else 0
  }

  lemma StepOfSink(s: System, a: Action)
    requires Enabled(s, a)
    ensures Step(s, a).sink ==
              match a {
                case StartTurn(conn, _) => Some(conn)
                case AttachBegin(conn, _, _, _) => Some(conn)
                case PumpSend(_, ok, _) => if ok then s.sink else None
                case _ => s.sink
              }
  {
    hide Follow;
    hide HandleAt;
    hide Route;
    hide Register;
    hide GiveUp;
    hide JournalAnswers;
    hide RuntimeOutcome;
    hide RuntimeAfter;
    hide HistoryAfter;
    hide Push;
  }

  /** In every run the live connection is the one that started a turn or attached last, and a failed send leaves none:
      an attach that is refused takes over all the same, and one that breaks off stays. */
  lemma {:induction false} LiveConnectionMeaning(limits: Limits, actions: seq<Action>, s: System)
    requires Reaches(limits, actions, s)
    ensures s.sink == LiveOf(actions)
    decreases |actions|
  {
    if actions != [] {
      var most := actions[..|actions| - 1];
      var before := Run(limits, most).value;
      LiveConnectionMeaning(limits, most, before);
      StepOfSink(before, actions[|actions| - 1]);
      hide Step;
    }
  }

  lemma StepOfSent(s: System, a: Action)
    requires Enabled(s, a)
    ensures a.PumpSend? ==> a.id in s.sent
    ensures Step(s, a).sent ==
              match a {
                case StartTurn(_, id) => s.sent[id := 0]
                case PumpSend(id, _, _) => s.sent[id := s.sent[id] + 1]
                case _ => s.sent
              }
  {
    hide Follow;
    hide HandleAt;
    hide Route;
    hide Register;
    hide GiveUp;
    hide JournalAnswers;
    hide RuntimeOutcome;
    hide RuntimeAfter;
    hide HistoryAfter;
    hide Push;
  }

  ghost predicate SentCount(s: System, actions: seq<Action>) {
    && (forall id :: id in s.sent ==> id in s.logs && s.sent[id] == SendsOf(actions, id))
    && (forall id :: id !in s.logs ==> SendsOf(actions, id) == 0)
  }

  lemma StepOfLogs(s: System, a: Action, id: InvocationId)
    requires Enabled(s, a)
    ensures id in Step(s, a).logs <==> id in s.logs || (a.StartTurn? && a.id == id)
  {
    hide Follow;
    hide HandleAt;
    hide Route;
    hide Register;
    hide GiveUp;
    hide JournalAnswers;
    hide RuntimeOutcome;
    hide RuntimeAfter;
    hide HistoryAfter;
    hide Push;
  }

  /** In every run the pump of an invocation has passed on as many events as it took steps for it, whether or not a
      connection was live. */
  lemma {:induction false} SentMeaning(limits: Limits, actions: seq<Action>, s: System)
    requires Reaches(limits, actions, s)
    ensures SentCount(s, actions)
    decreases |actions|
  {
    if actions != [] {
      var most, a := actions[..|actions| - 1], actions[|actions| - 1];
      var before := Run(limits, most).value;
      SentMeaning(limits, most, before);
      StepOfSent(before, a);
      hide Step;
      forall id
        ensures id in s.sent ==> id in s.logs && s.sent[id] == SendsOf(actions, id)
        ensures id !in s.logs ==> SendsOf(actions, id) == 0
      {
        StepOfLogs(before, a, id);
      }
    }
  }

  // --- what is followed ---

  lemma {:induction false} RunConcat(start: System, a: seq<Action>, b: seq<Action>)
    requires RunFrom(start, a).Some?
    ensures RunFrom(start, a + b) == RunFrom(RunFrom(start, a).value, b)
    decreases |b|
  {
    hide Step;
    hide Enabled;
    if b == [] {
      assert a + b == a;
    } else {
      RunConcat(start, a, b[..|b| - 1]);
      assert (a + b)[..|a + b| - 1] == a + b[..|b| - 1];
    }
  }

  /** The attach is not broken off or ended, and no other connection takes over. */
  predicate LetsReplay(a: Action, conn: nat) {
    !a.AttachAbort? && !a.AttachEnd? && (a.StartTurn? ==> a.conn == conn)
  }

  ghost predicate AllLetReplay(actions: seq<Action>, conn: nat) {
    forall k :: 0 <= k < |actions| ==> LetsReplay(actions[k], conn)
  }

  /** A complete replay is being sent on the live connection; only turns started since are followed yet. */
  ghost predicate Replays(s: System, conn: nat, known: set<InvocationId>, following: map<InvocationId, Tracked>) {
    && s.replay.Some? && s.sink == Some(conn)
    && s.replay.value.conn == conn && s.replay.value.whole && s.replay.value.base == s.base
    && s.replay.value.tracked == following
    && known <= s.logs.Keys && s.tracked.Keys !! known
  }

  lemma StepLetsReplay(s: System, a: Action, conn: nat, known: set<InvocationId>, following: map<InvocationId, Tracked>)
    requires Enabled(s, a) && Replays(s, conn, known, following) && LetsReplay(a, conn)
    ensures Replays(Step(s, a), conn, known, following)
  {
    hide Follow;
    hide HandleAt;
    hide Route;
    hide JournalAnswers;
  }

  lemma {:induction false} RunLetsReplay(start: System, actions: seq<Action>, s: System, conn: nat, known: set<InvocationId>, following: map<InvocationId, Tracked>)
    requires Replays(start, conn, known, following) && RunFrom(start, actions) == Some(s) && AllLetReplay(actions, conn)
    ensures Replays(s, conn, known, following)
    decreases |actions|
  {
    hide Step;
    hide Enabled;
    hide Replays;
    if actions != [] {
      var most := actions[..|actions| - 1];
      var before := RunFrom(start, most).value;
      RunLetsReplay(start, most, before, conn, known, following);
      assert LetsReplay(actions[|actions| - 1], conn);
      StepLetsReplay(before, actions[|actions| - 1], conn, known, following);
    }
  }

  lemma AttachStartsReplay(s: System, conn: nat, after: Cursors, limit: nat, answer: ReplayResult)
    requires Enabled(s, AttachBegin(conn, after, limit, answer)) && answer.Batch? && !answer.truncated
    ensures Replays(Step(s, AttachBegin(conn, after, limit, answer)), conn, s.logs.Keys, Follow(s, after))
  {
    hide JournalAnswers;
    hide Follow;
  }

  lemma EndFollows(s: System, conn: nat, known: set<InvocationId>, following: map<InvocationId, Tracked>)
    requires Enabled(s, AttachEnd) && Replays(s, conn, known, following) && following.Keys <= known
    ensures Step(s, AttachEnd).sink == Some(conn)
    ensures forall id :: id in following ==> id in Step(s, AttachEnd).tracked && Step(s, AttachEnd).tracked[id] == following[id]
  {
  }

  /** The connection stays live and nothing sent on it is lost. */
  predicate LetsFollow(a: Action, conn: nat) {
    !a.AttachBegin? && !a.AttachAbort? && (a.StartTurn? ==> a.conn == conn) && (a.PumpSend? ==> a.ok)
  }

  ghost predicate AllLetFollow(actions: seq<Action>, conn: nat) {
    forall k :: 0 <= k < |actions| ==> LetsFollow(actions[k], conn)
  }

  predicate Followed(s: System, conn: nat, id: InvocationId, t: Tracked) {
    s.sink == Some(conn) && id in s.logs && id in s.tracked && s.tracked[id] == t
  }

  lemma StepLetsFollow(s: System, a: Action, conn: nat, id: InvocationId, t: Tracked)
    requires Enabled(s, a) && Followed(s, conn, id, t) && LetsFollow(a, conn)
    ensures Followed(Step(s, a), conn, id, t)
  {
    hide HandleAt;
    hide Route;
    hide RuntimeOutcome;
    hide RuntimeAfter;
  }

  /** A followed invocation stays followed for as long as its connection is neither replaced nor loses a send. */
  lemma {:induction false} FollowedStays(start: System, actions: seq<Action>, s: System, conn: nat, id: InvocationId, t: Tracked)
    requires Followed(start, conn, id, t) && RunFrom(start, actions) == Some(s) && AllLetFollow(actions, conn)
    ensures Followed(s, conn, id, t)
    decreases |actions|
  {
    hide Step;
    hide Enabled;
    if actions != [] {
      var most := actions[..|actions| - 1];
      var before := RunFrom(start, most).value;
      FollowedStays(start, most, before, conn, id, t);
      assert LetsFollow(actions[|actions| - 1], conn);
      StepLetsFollow(before, actions[|actions| - 1], conn, id, t);
    }
  }

  /** An attach, its replay sent to the end, and what comes after. */
  function AttachRun(before: seq<Action>, attach: Action, during: seq<Action>, afterwards: seq<Action>): (r: seq<Action>) {
    before + ([attach] + during + [AttachEnd] + afterwards)
  }

  lemma AttachIsFollowed(limits: Limits, before: seq<Action>, s0: System, conn: nat, after: Cursors, limit: nat, answer: ReplayResult,
    during: seq<Action>, afterwards: seq<Action>, s: System, id: InvocationId)
    requires Reaches(limits, before, s0) && Enabled(s0, AttachBegin(conn, after, limit, answer))
    requires answer.Batch? && !answer.truncated && AllLetReplay(during, conn) && AllLetFollow(afterwards, conn)
    requires Reaches(limits, AttachRun(before, AttachBegin(conn, after, limit, answer), during, afterwards), s)
    requires id in after && Followable(s0, id, after[id])
    ensures Followed(s, conn, id, Tracked(after[id], HandleAt(s0.client, id, after[id])))
  {
    var attach := AttachBegin(conn, after, limit, answer);
    var s1 := Step(s0, attach);
    AttachStartsReplay(s0, conn, after, limit, answer);
    assert Follow(s0, after).Keys <= s0.logs.Keys;
    assert Follow(s0, after)[id] == Tracked(after[id], HandleAt(s0.client, id, after[id]));
    hide Step;
    hide Enabled;
    hide Follow;
    var tail := [attach] + during + [AttachEnd] + afterwards;
    RunConcat(Start(limits), before, tail);
    var s2, s3 := SplitRun(s0, attach, during, afterwards, s);
    RunLetsReplay(s1, during, s2, conn, s0.logs.Keys, Follow(s0, after));
    EndFollows(s2, conn, s0.logs.Keys, Follow(s0, after));
    assert id in s3.logs by { StepOfLogs(s2, AttachEnd, id); }
    FollowedStays(s3, afterwards, s, conn, id, Follow(s0, after)[id]);
  }

  lemma SplitRun(s0: System, attach: Action, during: seq<Action>, afterwards: seq<Action>, s: System) returns (s2: System, s3: System)
    requires Enabled(s0, attach) && RunFrom(s0, [attach] + during + [AttachEnd] + afterwards) == Some(s)
    ensures RunFrom(Step(s0, attach), during) == Some(s2) && Enabled(s2, AttachEnd) && Step(s2, AttachEnd) == s3
    ensures RunFrom(s3, afterwards) == Some(s)
  {
    hide Step;
    hide Enabled;
    var first := [attach] + during;
    var second := first + [AttachEnd];
    RunPrefix(s0, second, afterwards);
    RunPrefix(s0, first, [AttachEnd]);
    RunPrefix(s0, [attach], during);
    assert [attach][..0] == [];
    RunConcat(s0, [attach], during);
    s2 := RunFrom(s0, first).value;
    assert second[..|second| - 1] == first;
    s3 := RunFrom(s0, second).value;
    RunConcat(s0, second, afterwards);
  }

  lemma {:induction false} RunPrefix(start: System, a: seq<Action>, b: seq<Action>)
    requires RunFrom(start, a + b).Some?
    ensures RunFrom(start, a).Some?
    decreases |b|
  {
    hide Step;
    hide Enabled;
    if b == [] {
      assert a + b == a;
    } else {
      assert (a + b)[..|a + b| - 1] == a + b[..|b| - 1];
      RunPrefix(start, a, b[..|b| - 1]);
    }
  }

  /** From attach to delivery. A client attaches with its cursors, gets the complete replay, and keeps its connection.
      Once it has read everything sent there, each invocation that the journal retained, or whose cursor was not behind,
      has received every event its pump has sent, under a clock that does not step back. */
  lemma ReplayCatchesUp(limits: Limits, before: seq<Action>, s0: System, conn: nat, after: Cursors, limit: nat, answer: ReplayResult,
    during: seq<Action>, afterwards: seq<Action>, s: System, id: InvocationId)
    requires Reaches(limits, before, s0) && Enabled(s0, AttachBegin(conn, after, limit, answer))
    requires answer.Batch? && !answer.truncated && AllLetReplay(during, conn) && AllLetFollow(afterwards, conn)
    requires var actions := AttachRun(before, AttachBegin(conn, after, limit, answer), during, afterwards);
             Reaches(limits, actions, s) && SteadyRun(limits, actions)
    requires id in after && Followable(s0, id, after[id])
    requires Known(s0.client, id) && s0.client.remotes[s0.client.invocations[id]].lastSequence >= after[id]
    requires Known(s.client, id) && s.client.invocations[id] == s0.client.invocations[id]
    requires conn < |s.wires| && conn < |s.read| && s.read[conn] == |s.wires[conn]|
    ensures id in s.logs && id in s.sent && s.sent[id] <= |s.logs[id]|
    ensures s.logs[id][..s.sent[id]] <= s.client.remotes[s.client.invocations[id]].delivered
  {
    AttachIsFollowed(limits, before, s0, conn, after, limit, answer, during, afterwards, s, id);
    hide Enabled;
    hide Reaches;
    hide SteadyRun;
    CaughtUp(limits, AttachRun(before, AttachBegin(conn, after, limit, answer), during, afterwards), s, id);
  }

  /** From start to delivery. A turn that the client registered and then started on a connection has, once everything sent
      there is read, received every event its pump has sent, as long as that connection is kept. */
  lemma StartCatchesUp(limits: Limits, before: seq<Action>, s0: System, conn: nat, id: InvocationId, afterwards: seq<Action>, s: System)
    requires Reaches(limits, before, s0) && Enabled(s0, StartTurn(conn, id)) && AllLetFollow(afterwards, conn)
    requires var actions := before + ([StartTurn(conn, id)] + afterwards); Reaches(limits, actions, s) && SteadyRun(limits, actions)
    requires Known(s0.client, id)
    requires Known(s.client, id) && s.client.invocations[id] == s0.client.invocations[id]
    requires conn < |s.wires| && conn < |s.read| && s.read[conn] == |s.wires[conn]|
    ensures id in s.logs && id in s.sent && s.sent[id] <= |s.logs[id]|
    ensures s.logs[id][..s.sent[id]] <= s.client.remotes[s.client.invocations[id]].delivered
  {
    var start := StartTurn(conn, id);
    var s1 := Step(s0, start);
    assert Followed(s1, conn, id, Tracked(0, HandleAt(s0.client, id, 0)));
    hide Step;
    hide Enabled;
    RunConcat(Start(limits), before, [start] + afterwards);
    RunPrefix(s0, [start], afterwards);
    assert [start][..0] == [];
    RunConcat(s0, [start], afterwards);
    FollowedStays(s1, afterwards, s, conn, id, Tracked(0, HandleAt(s0.client, id, 0)));
    CaughtUp(limits, before + ([start] + afterwards), s, id);
  }
}
