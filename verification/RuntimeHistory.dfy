/** What a runtime's status and its answers to admission requests say about its history, in every run. */
module RuntimeHistory {
  import opened Basics
  import opened Events
  import opened RecentWindow
  import opened RuntimeEntry

  /** The outcomes after which the process or its connection cannot be relied on. */
  predicate Degrades(outcome: TurnOutcome) {
    match outcome
    case Succeeded => false
    case Failed(kind) =>
      match kind {
        case Network => true
        case Transport => true
        case ProviderProcess => true
        case Indeterminate => true
        case Cancelled => false
        case OtherFailure => false
      }
  }

  /** A turn was admitted since the slot was last emptied. */
  predicate Taken(w: World) {
    w.ids != [] && (w.clears == [] || w.clears[|w.clears| - 1].admitted < |w.ids|)
  }

  /** The status of a runtime whose slot is empty, before disposal has held the lock. */
  function IdleStatus(clears: seq<Clear>): (s: Status) {
    if clears == [] then Ready
    else
      var last := clears[|clears| - 1];
      if last.disposed then Stopped else if Degrades(last.outcome) then Degraded else Ready
  }

  function StatusOf(w: World): (s: Status) {
    if w.locked then (if Taken(w) then Stopping else Stopped)
    else if Taken(w) then Busy
    else IdleStatus(w.clears)
  }

  ghost predicate Follows(w: World) {
    && (w.entry.active.Some? <==> Taken(w))
    && (w.clears != [] ==> w.clears[|w.clears| - 1].admitted <= |w.ids|)
    && (w.locked ==> w.entry.disposed)
    && (w.clears != [] && w.clears[|w.clears| - 1].disposed ==> w.entry.disposed)
    && w.entry.status == StatusOf(w)
  }

  lemma RoundKeepsFollows(w: World, r: nat)
    requires Follows(w) && Enabled(w, Round(r))
    ensures Follows(Apply(w, Round(r)))
  {
    hide Last;
    hide Elements;
  }

  lemma FinishKeepsFollows(w: World, t: nat, outcome: TurnOutcome)
    requires Follows(w) && Enabled(w, Finish(t, outcome))
    ensures Follows(Apply(w, Finish(t, outcome)))
  {
    hide Admit;
  }

  lemma StepKeepsFollows(w: World, a: Action)
    requires Follows(w) && Enabled(w, a)
    ensures Follows(Apply(w, a))
  {
    hide Admit;
    hide AfterRound;
    hide FinalStatus;
    hide IdleStatus;
    match a
    case Round(r) => RoundKeepsFollows(w, r);
    case Finish(t, outcome) => FinishKeepsFollows(w, t, outcome);
    case _ =>
  }

  lemma {:induction false} RunKeepsFollows(w: World, actions: seq<Action>, spared: set<Phase>)
    requires Follows(w) && Exec(w, actions, spared).At?
    ensures Follows(Exec(w, actions, spared).world)
  {
    hide Follows;
    hide Apply;
    if actions != [] {
      RunKeepsFollows(w, actions[..|actions| - 1], spared);
      StepKeepsFollows(Exec(w, actions[..|actions| - 1], spared).world, actions[|actions| - 1]);
    }
  }

  lemma ReachableFollows(w: World, spared: set<Phase>)
    requires Reachable(w, spared)
    ensures Follows(w)
  {
    var spec: Option<SessionId>, actions :|
      Exec(Start(spec, RECENT_INVOCATION_CAPACITY), actions, spared) == At(w);
    assert Follows(Start(spec, RECENT_INVOCATION_CAPACITY));
    RunKeepsFollows(Start(spec, RECENT_INVOCATION_CAPACITY), actions, spared);
  }

  /** In every run the slot is taken exactly when a turn was admitted since it was last emptied, and the status is
      determined by that, by disposal, and by the outcome of the turn that emptied the slot last. */
  lemma StatusFromHistory(w: World, spared: set<Phase>)
    requires Reachable(w, spared)
    ensures w.entry.active.Some? <==> Taken(w)
    ensures w.entry.status == StatusOf(w)
  {
    hide Reachable;
    ReachableFollows(w, spared);
  }

  /** An idle runtime that is not disposed is Degraded exactly if the last turn to empty the slot failed with the
      network, the transport, the provider's process or an indeterminate result, and otherwise Ready. */
  lemma IdleMeaning(w: World, spared: set<Phase>)
    requires Reachable(w, spared) && !w.entry.disposed && w.entry.active.None?
    ensures w.entry.status == Degraded <==>
              && w.clears != []
              && w.clears[|w.clears| - 1].outcome in
                   {Failed(Network), Failed(Transport), Failed(ProviderProcess), Failed(Indeterminate)}
    ensures w.entry.status != Degraded ==> w.entry.status == Ready
  {
    hide Reachable;
    ReachableFollows(w, spared);
  }

  // --- admission ---

  /** The request was answered without a round of admission. */
  predicate Unheard(q: Request) {
    q.rounds == 0 && q.at.Answered?
  }

  /** A request is refused without a round of admission exactly if it is submitted after disposal. */
  lemma SubmitMeaning(w: World, id: InvocationId, kind: Kind)
    ensures var w' := Apply(w, Submit(id, kind));
            && |w'.requests| == |w.requests| + 1 && w'.requests[..|w.requests|] == w.requests
            && w'.requests[|w.requests|].id == id && w'.requests[|w.requests|].kind == kind
            && (Unheard(w'.requests[|w.requests|]) <==> w.entry.disposed)
            && (w.entry.disposed ==> w'.requests[|w.requests|].at == Answered(RuntimeDisposed))
  {
  }

  /** The newest turn holds the slot and has not yielded it to this request. */
  predicate Blocked(w: World, q: Request) {
    Taken(w) && |w.phases| == |w.ids| && !(q.accepted && LetGo(w.phases[|w.phases| - 1]))
  }

  /** How a round of the admission loop ends, from what has happened to the runtime. */
  function AnswerOf(w: World, q: Request): (a: Admitting) {
    if w.entry.disposed then Answered(RuntimeDisposed)
    else if q.id in Last(w.ids, RECENT_INVOCATION_CAPACITY) then Answered(InvocationAlreadyExists)
    else if Blocked(w, q) then
      if q.kind == Turn && !q.attempted then AwaitingHandoff else Answered(RuntimeBusy(w.ids[|w.ids| - 1]))
    else if q.kind == ManualCompaction && w.entry.session == None then Answered(NeedsSession)
    else Answered(Admitted(w.entry.session))
  }

  lemma BlockedMeaning(w: World, q: Request)
    requires Inv(w) && Follows(w)
    ensures Blocked(w, q) <==> w.entry.active.Some? && !(q.accepted && w.entry.active.value.turn in w.entry.released)
    ensures w.entry.active.Some? ==> w.ids != [] && w.entry.active.value.id == w.ids[|w.ids| - 1]
  {
    hide StatusOf;
    hide RoundsBounded;
    hide StatusFollows;
  }

  lemma RecentMeaning(w: World, id: InvocationId)
    requires Recency(w) && w.entry.capacity == RECENT_INVOCATION_CAPACITY
    ensures id in w.entry.recent <==> id in Last(w.ids, RECENT_INVOCATION_CAPACITY)
  {
    TailIsLast(w.entry.recentOrder, w.ids, w.entry.capacity);
    hide Last;
    hide IsTail;
    hide Spaced;
  }

  lemma AdmitMeaning(w: World, q: Request)
    requires Inv(w) && Recency(w) && Follows(w) && w.entry.capacity == RECENT_INVOCATION_CAPACITY
    ensures var answer := Admit(w.entry, q.id, q.kind, q.attempted, q.accepted);
            AnswerOf(w, q) == if answer.AskHandoff? then AwaitingHandoff else Answered(answer)
  {
    hide Last;
    hide Inv;
    hide Recency;
    hide Follows;
    hide Blocked;
    BlockedMeaning(w, q);
    RecentMeaning(w, q.id);
  }

  lemma RoundAnswers(w: World, r: nat)
    requires Enabled(w, Round(r))
    ensures var q := w.requests[r];
            var answer := Admit(w.entry, q.id, q.kind, q.attempted, q.accepted);
            && Apply(w, Round(r)).requests[r].at == (if answer.AskHandoff? then AwaitingHandoff else Answered(answer))
            && Apply(w, Round(r)).ids == if answer.Admitted? then w.ids + [q.id] else w.ids
  {
    hide Admit;
    hide AfterAdmission;
  }

  lemma AdmittedMeans(e: Entry, q: Request)
    ensures var answer := Admit(e, q.id, q.kind, q.attempted, q.accepted); answer.Admitted? ==> answer == Admitted(e.session)
  {
  }

  /** In every run a round of admission is answered from the history: refused after disposal, for an identifier among
      the last 1,024 admitted, and while a turn holds the slot without having yielded it (a first attempt of an ordinary
      turn asks it to); a manual compaction needs a session; and nothing else is refused. */
  lemma AdmissionMeaning(w: World, r: nat, spared: set<Phase>)
    requires Reachable(w, spared) && Enabled(w, Round(r))
    ensures Apply(w, Round(r)).requests[r].at == AnswerOf(w, w.requests[r])
    ensures Apply(w, Round(r)).ids == if AnswerOf(w, w.requests[r]) == Answered(Admitted(w.entry.session))
                                      then w.ids + [w.requests[r].id] else w.ids
  {
    hide Reachable;
    hide Inv;
    hide Recency;
    hide Follows;
    hide AnswerOf;
    hide Admit;
    hide Apply;
    ReachableFollows(w, spared);
    ReachableInv(w, spared);
    ReachableRecency(w, spared);
    AdmitMeaning(w, w.requests[r]);
    AdmittedMeans(w.entry, w.requests[r]);
    RoundAnswers(w, r);
  }

  ghost predicate AnyReported(reports: seq<Option<SessionId>>) {
    exists t :: 0 <= t < |reports| && reports[t].Some?
  }

  lemma {:induction false} SessionKnownIff(spec: Option<SessionId>, reports: seq<Option<SessionId>>)
    ensures LastReported(spec, reports).Some? <==> spec.Some? || AnyReported(reports)
    decreases |reports|
  {
    if reports != [] {
      var most := reports[..|reports| - 1];
      SessionKnownIff(spec, most);
      if AnyReported(most) {
        var t :| 0 <= t < |most| && most[t].Some?;
        assert reports[t].Some?;
      }
    }
  }

  /** When nothing blocks a request, all reports are recorded. */
  lemma UnblockedIsRecorded(w: World, q: Request, spared: set<Phase>)
    requires Reachable(w, spared) && Early(spared) && UNRECORDED <= spared && !Blocked(w, q)
    ensures RecordedCount(w.phases) == |w.phases| == |w.reports|
  {
    ReachableFollows(w, spared);
    ReachableInv(w, spared);
    ReachableHolds(w, spared);
  }

  /** A manual compaction that nothing else stands against is admitted exactly if the spec names a session or some turn
      admitted so far has reported one, in every run that spares unrecorded turns. */
  lemma CompactionNeedsSession(w: World, r: nat, spared: set<Phase>)
    requires Reachable(w, spared) && Early(spared) && UNRECORDED <= spared && Enabled(w, Round(r))
    requires w.requests[r].kind == ManualCompaction && !w.entry.disposed && !Blocked(w, w.requests[r])
    requires w.requests[r].id !in Last(w.ids, RECENT_INVOCATION_CAPACITY)
    ensures Apply(w, Round(r)).requests[r].at ==
              Answered(if w.spec.Some? || AnyReported(w.reports) then Admitted(w.entry.session) else NeedsSession)
  {
    hide Reachable;
    AdmissionMeaning(w, r, spared);
    UnblockedIsRecorded(w, w.requests[r], spared);
    SessionsFollowReports(w, spared);
    hide Apply;
    hide Blocked;
    hide RecordedCount;
    hide LastReported;
    hide Last;
    assert w.reports[..|w.reports|] == w.reports;
    SessionKnownIff(w.spec, w.reports);
  }
}
