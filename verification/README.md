# Verified model of the retained-runtime SDK

This project models the hardest parts of the agent runtime SDK and proves what they promise: the remote event pipeline
from the host's sinks to the client's channels, the bounded journal, the request cache and the interaction broker,
turn admission, the diagnostic scrubber, POSIX quoting and stream framing.

`dafny verify dfyconfig.toml` checks everything. The source cells below are paths in the repository.

## What is proved

**The event pipeline** (`Pipeline`, `LiveDelivery`, `LiveConnection`, `Forgotten`, `AttachLoop`, `ClientOutcomes`,
`EventSink`, `ProviderStream`, `SinkSource`, `RemoteHost`, `RemoteClient`). Host sinks, pumps, the journal, any number
of connections and the client take steps in any order; sends fail, connections are lost, replays are repeated or cut
short, the journal forgets. In every run, whatever the clock does, an invocation's channel holds exactly the host's
events 1 to its cursor (`ClientSeesThePrefix`); a turn that succeeds has received the whole log, ending with that
result (`SuccessHidesNothing`); nothing completes twice (`CompletesOnce`). If the clock does not step back within an
invocation, a connection that took over by a complete replay or a turn start never shows a gap
(`NoGapOnLiveConnection`), and reading it to the end yields everything sent (`CaughtUp`). The replay reaches what was
sent exactly when the journal still retains the invocation or the cursor is not behind the pump (`ReplayCoversIff`).
When it does not, no error is reported, and `UncoveredGapIff` says what follows: a gap if and only if the pump already
holds an appended event, and otherwise nothing of that invocation ever again. `ForgottenGapIsReached` is a run in
which the client reads the gap. `ReplayCatchesUp` and `StartCatchesUp` follow an invocation from attach or start to
delivery. Every outcome has its exact cause: a turn succeeds if and only if its channel ends in that completion, and
fails if and only if its channel ends in that failure, the client gave up, or the channel took no more
(`TerminalEventDecides`, `FailureHasACause`). At the other end, a sink passes on all its executor emits but compaction
starts while one is open (`ForwardedNext`, `StreamMeaning`, `OutcomeMeaning`).

**The journal** (`Journal`, `JournalHistory`, `Replay`, `JournalStore`, `ReplayMeaning`). The bounded journal answers
as an unbounded history would, over every run (`AnswersFollowHistory`, `RunRefines`), as long as no counter has
saturated (`WindowOutcomeRefinesIff` is the exact condition). An append that is not accepted changes nothing exactly
when its runtime was registered or its schema is unknown (`RefusedAppendIsNoOpIff`). Paging is complete and shortest
when times advance, and complete for every page size only then (`PagingIsComplete`, `PagingIsShort`,
`PagingCompleteIffTimesAdvance`); a replay equals the log past the cursor exactly when times are in order
(`ReplayMatchesLog`). A cursor expires if and only if something past it was lost (`ExpiredIff`), and a batch is what
the complete history was asked for (`BatchMeaning`).

**Tables with a bounded memory** (`RequestCache`, `Interactions`, `InteractionAnswers`, `RuntimeEntry`,
`RuntimeHistory`). Each keeps a map, a queue and a counter in step and forgets oldest first; `Spaced` states what that
guarantees. One owner per request, one place per accepted response, one executor per runtime. What they answer, and
the runtime's status, follow from the history alone (`ClaimMeaning`, `ResolutionMeaning`, `RegistrationMeaning`,
`AdmissionMeaning`, `StatusFromHistory`). Two of these laws have an edge, each with its exact condition and a run that
breaks it. An interaction guard spares later waiters if and only if it was issued before the generation counter
saturated. The turns that still hold the runtime are the active turn throughout a run if and only if no finish ever
found one of them in the slot under its own identifier (`HoldsIffSpared`); finishing while at most 1,024 later turns
were admitted is enough (`PromptRunsSpare`).

**The scrubber** (`Utf8`, `Utf8Meaning`, `PrefixMatch`, `Scrub`, `PercentEscapes`). The failure table holds longest
borders; every match of eight or more bytes is inside a range up to its last character that is not whitespace, and
every range starts at one; the percent-decoding offset map is monotone and keeps boundaries; the output is the text
with exactly the union of the ranges replaced. Valid text is exactly what encodes scalar values (`ValidIff`), and a
secret does not show however its bytes are escaped (`WrittenSecretIsHidden`).

**Shell text and framing** (`ShellWords`, `Launcher`, `RemoteProcess`, `RemoteCommand`, `CommandRun`, `Framing`). An
independent reader for the used part of the POSIX Shell Command Language reads the generated text back to the intended
words. By the rules of the `env` utility the process then has the intended environment, and its own arguments if and
only if the program's name holds no equals sign (`LaunchMeaning`); by the rules for lists the launcher runs even if
the change of directory failed (`CommandRuns`). Cutting a framed stream anywhere yields the whole frames and a clean
end exactly at frame boundaries.

## How it is modelled

State that the source changes in place is a class whose methods are proved against functions on its abstract value;
runs are sequences of atomic steps of those functions, next to ghost histories. Each section that holds a lock is one
step. Identifiers, results and failures are numbers, because only their equality matters. Replay orders equal times by
invocation identifier, as the source does by the identifier's text.

A `Pipeline.System` holds the host, the carrier, the client and two pieces of bookkeeping that no step depends on: the
journal's history, and which invocations are followed on the live connection from which cursor. The host's own code is
the class in `RemoteHost`, the client's the class in `RemoteClient`; their methods are the steps of that system.

In `RuntimeEntry`, `Reachable(w, spared)` ranges over the runs in which every finish spares turns in the phases
`spared`: with the empty set that is every run, and results with a free set hold in every run.

Where comments and code differ, the code is followed: the percent decoder accepts a plus sign before one hexadecimal
digit, since the library's number parser does, and a refused append can still evict another runtime's journal.

## Model

| member | source | states |
|---|---|---|
| RemoteClient.RemoteRuntimeClient.constructor | src/protocol_client.rs:148-167 | a client starts with no invocation |
| RemoteClient.RemoteRuntimeClient.CompleteRemote | src/protocol_client.rs:1059-1068 | the first completion is kept, later ones are ignored |
| RemoteClient.RemoteRuntimeClient.RouteEvent | src/protocol_client.rs:504-569 | unknown and repeated events change nothing, a gap only asks for recovery, the successor is delivered, a full or closed channel fails the turn, a terminal event completes and unregisters it |
| RemoteClient.RemoteRuntimeClient.StartTurn | src/protocol_client.rs:934-950 | a new turn is registered before the request is sent, at sequence 0 |
| RemoteClient.RemoteRuntimeClient.Abandon | src/protocol_client.rs:809-829 | giving up unregisters the turn and completes it with the failure, if it was still registered |
| RemoteClient.RouteKeepsOk | src/protocol_client.rs:504-569 | registered invocations are the uncompleted ones listed under their own identifier, after any event |
| RemoteClient.CompletedIsFrozen | src/protocol_client.rs:1059-1068 | no routing, giving up or new registration touches an invocation that has completed |
| Pipeline.RunKeepsSafe | src/protocol_host.rs:660-695 | over every run of emit, append, send, attach, replay, lose and route: logs are numbered and end at their terminal event, every frame anywhere was emitted, the journal holds what the pumps appended, each channel holds a prefix of its log |
| Pipeline.ClientSeesThePrefix | src/protocol_client.rs:504-569 | in every run and with any timestamps, what reached a channel is exactly events 1 to the cursor of the host log: same payloads, no gap, duplicate or reordering |
| Pipeline.SuccessHidesNothing | src/protocol_client.rs:518-568 | a turn completed with a result has received the whole host log, which ends in the completion with that same result |
| Pipeline.CompletesOnce | src/protocol_client.rs:1059-1068 | once completed, an invocation never changes in any continuation of the run |
| Pipeline.AppendKeepsJournal | src/protocol_host.rs:672-685 | after the pump appends its next event the bounded journal still refines exactly the events appended, including when the append is refused and the pump stops |
| Pipeline.RetainedMeaning | src/journal.rs:365-384 | every event a replay can return was emitted by the sink and appended by the pump |
| Pipeline.RouteKeepsRemotes | src/protocol_client.rs:518-568 | routing any emitted event keeps every channel a prefix of its log, and a success only at its end |
| Pipeline.StepFreezes | src/protocol_client.rs:1059-1068 | no single step of the system changes a completed invocation |
| ClientOutcomes.TerminalEventDecides | src/protocol_client.rs:558-568 | in every run a turn has succeeded with a result if and only if its channel ends in the completion carrying that result, and one whose channel ends in a failure has failed with that failure |
| ClientOutcomes.FailureHasACause | src/protocol_client.rs:523-568 | in every run a turn has failed if and only if its channel ends in that failure, or some step gave up on it or found its channel full or closed for the next event, with that failure |
| ClientOutcomes.RegisteredIff | src/protocol_client.rs:934-950 | in every run a turn is registered if and only if it has not completed, was not given up and no other turn was started under its identifier |
| ClientOutcomes.RecoveriesCountSkips | src/protocol_client.rs:515-518 | in every run recovery was requested once for each event read that left out another |
| RemoteHost.RemoteRuntimeHost.constructor | src/protocol_host.rs:226-248 | a host with nothing started, journaled or sent |
| RemoteHost.RemoteRuntimeHost.StartTurn | src/protocol_host.rs:436-480 | a started turn is registered with an idle pump and makes its connection the live one, even while an attach holds the delivery gate |
| RemoteHost.RemoteRuntimeHost.AppendNext | src/protocol_host.rs:671-685 | the pump's next event is appended before it is sent, and a refused append stops the pump |
| RemoteHost.RemoteRuntimeHost.SendLive | src/protocol_host.rs:712-733 | the event goes to the live connection, if any, and an unconfirmed send removes that connection |
| RemoteHost.AskJournal | src/protocol_host.rs:406-415 | in every safe state an attach gets an answer: a limit error, an expired window, or the batch for exactly the cursored invocations |
| RemoteHost.RemoteRuntimeHost.Attach | src/protocol_host.rs:387-415 | the attach takes gate and live connection before it asks the journal, and keeps the connection when the answer is an error |
| RemoteHost.RemoteRuntimeHost.SendReplayed | src/protocol_host.rs:890-910 | the replayed events are sent in order |
| RemoteHost.RemoteRuntimeHost.FinishReplay | src/protocol_host.rs:304-308 | the gate is released after the last frame |
| RemoteHost.RemoteRuntimeHost.AbortReplay | src/protocol_host.rs:890-910 | a failed send ends the replay, releases the gate and leaves the live connection in place |
| RemoteHost.RemoteRuntimeHost.ForgetJournal | src/journal.rs:224-228 | registering another runtime can drop this one's journal |
| LiveDelivery.NoGapOnLiveConnection | src/protocol_host.rs:387-435 | with times that do not step back, an invocation followed on the live connection since a complete replay or its start never takes the gap branch |
| LiveDelivery.CaughtUp | src/protocol_host.rs:712-733 | once the live connection has been read to its end, a followed invocation has received every event its pump has sent |
| LiveDelivery.ReplayCoversIff | src/protocol_host.rs:387-435 | an untruncated replay reaches what the pump has sent if and only if the journal retains the invocation or the cursor is not behind the pump |
| Forgotten.UncoveredGapIff | src/protocol_host.rs:387-435 | after an attach that cannot cover an invocation and reports no error, a gap can follow if and only if the pump holds an event already appended; otherwise the invocation is silent |
| Forgotten.SilentForever | src/protocol_host.rs:672-685 | in every continuation nothing of a silent invocation is put on any connection again |
| Forgotten.ForgottenPumpStops | src/protocol_host.rs:672-685 | the pump of a forgotten invocation stops at its next append |
| Forgotten.ForgottenGapIsReached | src/journal.rs:248-255 | a run in which the journal is displaced while the pump holds an event, the client attaches from its own cursor, gets an empty untruncated replay, and reads a gap |
| SinkSource.PipelineTakesTheStream | src/retained.rs:2103-2119 | for every executor and receiver the pipeline can take the sink's events one by one, and its log is then exactly what the sink delivered |
| LiveDelivery.RunKeepsFlowing | src/protocol_host.rs:299-309 | over every run with a steady clock: frames sent since the connection became live follow one another without a gap and reach what was sent, counting the replay still held behind the delivery gate |
| LiveDelivery.PredecessorFirst | src/journal.rs:385-390 | in the replay order every event past the cursor comes after its predecessor |
| LiveDelivery.RetainedPastCursor | src/journal.rs:346-384 | with an unexpired cursor, every appended event past it is selected for replay |
| LiveDelivery.RouteKeepsOne | src/protocol_client.rs:508-521 | reading the next frame of a gap-free connection keeps the client at or past the highest sequence read |
| LiveDelivery.PushKeepsOne | src/protocol_host.rs:668-688 | sending the pump's next event, or an event of another invocation, keeps the connection gap-free |
| LiveConnection.LiveConnectionMeaning | src/protocol_host.rs:712-733 | in every run the live connection is the one that started a turn or attached last, refused or broken-off attaches included, and none after a failed send |
| LiveConnection.SentMeaning | src/protocol_host.rs:668-688 | in every run a pump has passed on one event for each of its send steps, with or without a live connection |
| LiveConnection.FollowedStays | src/protocol_host.rs:712-733 | an invocation followed on a connection stays followed for as long as that connection is neither replaced nor loses a send |
| LiveConnection.ReplayCatchesUp | src/protocol_host.rs:387-435 | from attach to delivery: after a complete replay on a kept connection that was read to its end, every covered invocation has received every event its pump has sent |
| LiveConnection.StartCatchesUp | src/protocol_host.rs:436-480 | the same from the start of a turn |
| AttachLoop.AttachRuntime | src/protocol_client.rs:835-873 | on a quiescent host an attach is refused exactly when the first request is, succeeds exactly when the outstanding events fit 1,024 pages of 2,048, never stalls, and on success every retained invocation has received everything appended |
| AttachLoop.AttachPage | src/protocol_client.rs:839-858 | a page delivers exactly the first outstanding events, leaves exactly the rest outstanding, and moves a cursor whenever it has events |
| AttachLoop.RoutePage | src/protocol_client.rs:480-503 | routing a page in order delivers each event to its invocation |
| AttachLoop.NextInSequence | src/journal.rs:365-402 | each replayed event is the successor of the cursor its invocation has by then |
| AttachLoop.RestIsOutstanding | src/protocol_client.rs:875-888 | the cursors the client reports after a page select exactly what came after that page, although finished invocations are no longer reported |
| AttachLoop.PageAdvances | src/protocol_client.rs:858-866 | a page with events always changes the reported cursors |
| Journal.FindEvent | src/journal.rs:428-432 | an equal retained event is found if there is one |
| Journal.AppendToWindow | src/journal.rs:420-458 | the window's answer and its new contents, with the oldest events counted as evicted |
| Journal.AppendToRuntime | src/journal.rs:293-339 | the runtime's answer and its new maps and queues, including eviction and forgetting |
| Journal.EvictExcessMoves | src/journal.rs:319-326 | the eviction loop moves exactly the oldest live invocations to the end of the evicted queue and keeps maps and queues in agreement |
| Journal.ForgetExcessDrops | src/journal.rs:327-331 | the forgetting loop drops exactly the oldest evicted identifiers |
| Journal.RegisteredHolds | src/journal.rs:218-236 | after registering, the runtime is present, so the missing-runtime error is unreachable |
| Journal.WithoutRemoves | src/journal.rs:259-265 | removal takes exactly that runtime out of the set |
| Journal.WithoutKeepsOrder | src/journal.rs:259-265 | the other runtimes stay in their order |
| JournalHistory.WindowOutcomeRefines | src/journal.rs:420-458 | while the counter has not saturated for the envelope, a window answers as the complete log would |
| JournalHistory.WindowOutcomeRefinesIff | src/journal.rs:420-458 | for 64-bit numbers that is the exact condition |
| JournalHistory.WindowRefinesLog | src/journal.rs:420-458 | the window after an append is the last events of the log after that append, with the rest counted |
| JournalHistory.NumberingHoldsBelowTheTop | src/journal.rs:421-426 | only the next number is accepted if and only if the log is shorter than the largest 64-bit value |
| JournalHistory.QueuesMeaning | src/journal.rs:293-339 | live and evicted queues are the last admissions and those just before them |
| JournalHistory.MembershipMeaning | src/journal.rs:274-291 | the maps hold exactly the identifiers in those queues |
| JournalHistory.RuntimeRefines | src/journal.rs:293-339 | one append: the bounded runtime journal answers as its unbounded history and keeps refining it |
| JournalHistory.AppendRefines | src/journal.rs:208-236 | one append to the whole journal, with registration and runtime eviction, follows the history |
| JournalHistory.RunRefines | src/journal.rs:206-266 | over every sequence of appends and removals that meets no saturated counter the journal refines its histories |
| JournalHistory.AnswersFollowHistory | src/journal.rs:208-236 | in every reachable state an append is answered from the history, and the state errors are never returned |
| JournalHistory.WindowsAreTails | src/journal.rs:405-458 | every retained window is the last events of the log, the evicted count is the rest, and the runtime bound holds |
| JournalHistory.ReadmissionsAreSpaced | src/journal.rs:293-339 | two admissions of one invocation have at least twice the bound of other admissions between them |
| JournalHistory.RefusedAppendIsNoOpIff | src/journal.rs:208-236 | an append that is not accepted changes nothing if and only if its schema is refused or its runtime was registered |
| JournalHistory.RefusedAppendCanEvict | src/journal.rs:218-229 | a refused first append still registers its runtime and evicts the oldest one |
| Replay.SortEvents | src/journal.rs:385-390 | the sorted, duplicate-free arrangement of the selected events |
| Replay.SortedUnique | src/journal.rs:385-390 | the replay order leaves no freedom: a sorted sequence is determined by its events |
| Replay.AdvanceMeaning | src/journal.rs:393-396 | a cursor is the sequence of the last event handed out, or unchanged |
| Replay.PageSplit | src/journal.rs:391-402 | with advancing times, what is pending after a page is exactly what came after the cut |
| Replay.PagingIsComplete | src/journal.rs:341-402 | with advancing times, feeding the cursors back returns every pending event exactly once, in order |
| Replay.PagingIsShort | src/journal.rs:341-402 | and takes the least number of pages |
| Replay.PagesNeededIsCeiling | src/journal.rs:341-402 | that number is the ceiling of the count divided by the page size |
| Replay.PagesArePending | src/journal.rs:341-402 | whatever the times, every page holds only pending events |
| Replay.OneByOneSkips | src/journal.rs:385-402 | if a later event was observed before an earlier one, pages of one event never return the earlier |
| Replay.PagingCompleteIffTimesAdvance | src/journal.rs:341-402 | paging is complete for every page size if and only if times never step back within an invocation |
| JournalStore.FindExpired | src/journal.rs:346-363 | the first expired cursor in key order, if there is one |
| JournalStore.Collect | src/journal.rs:365-384 | exactly the retained, selected events past their cursors, each once |
| JournalStore.AdvanceCursors | src/journal.rs:393-396 | the cursors after the page |
| JournalStore.ReplayRuntime | src/journal.rs:341-402 | an expired window, or the first events of the replay order with cursors and truncation mark |
| JournalStore.BatchesArePages | src/journal.rs:341-402 | a batch is the first page, its cursors give the remaining pages, and no cursor expires meanwhile |
| JournalStore.InMemoryEventJournal.constructor | src/journal.rs:165-188 | a new journal is empty |
| JournalStore.NewJournal | src/journal.rs:167-188 | refused exactly when a limit is zero, naming the first such limit |
| JournalStore.InMemoryEventJournal.Append | src/journal.rs:208-236 | the journal's answer and new state |
| JournalStore.InMemoryEventJournal.Replay | src/journal.rs:238-257 | limit errors, unknown runtimes and the runtime's own answer |
| JournalStore.InMemoryEventJournal.RemoveRuntime | src/journal.rs:259-265 | the runtime is gone from map and queue |
| JournalStore.Retain | src/journal.rs:262-264 | the order without that runtime |
| JournalStore.ReplayMatchesLog | src/journal.rs:341-402 | an untruncated replay of a cursored, retained invocation equals the unbounded log past the cursor if and only if those events' times are in order |
| JournalStore.RetainedPast | src/journal.rs:346-384 | with an unexpired cursor the window and the unbounded log have the same events past it |
| ReplayMeaning.ExpiredIff | src/journal.rs:346-363 | a cursor has expired if and only if its invocation is remembered as evicted, or is live and an accepted event past the cursor is no longer retained |
| ReplayMeaning.EarliestMeaning | src/journal.rs:346-363 | the earliest available sequence follows the least cursor from which nothing was lost; for an evicted invocation it follows the cursor |
| ReplayMeaning.BatchMeaning | src/journal.rs:365-402 | a batch holds only events of the complete history that were asked for, and all of them unless it is truncated |
| ReplayMeaning.BatchOrder | src/journal.rs:385-390 | in a batch earlier times come first, then lower invocations, then lower sequences |
| RequestCache.Table.constructor | src/protocol_host.rs:787-796 | an empty cache |
| RequestCache.Table.ClaimRequest | src/protocol_host.rs:319-363 | owner, wait, cached answer, conflict or capacity, and the new state |
| RequestCache.Table.EvictCompleted | src/protocol_host.rs:798-809 | completed requests are forgotten oldest first, down to the capacity |
| RequestCache.Table.Finish | src/protocol_host.rs:820-851 | completion stores the frames and evicts |
| RequestCache.Table.Drop | src/protocol_host.rs:854-877 | an abandoned claim is taken back |
| RequestCache.RunKeepsInv | src/protocol_host.rs:779-877 | over every run of claims, completions and abandonments: entries, queue, counter, guards and history agree |
| RequestCache.ClaimMeaning | src/protocol_host.rs:319-363 | in every reachable state a claim is answered exactly as the history of owners and completions says: same bytes get the recorded frames, other bytes are refused |
| RequestCache.OneOwner | src/protocol_host.rs:812-877 | at most one owner per request, and the pending counter is the number of owners and of pending entries, within the bound |
| RequestCache.CompletionsAreSpaced | src/protocol_host.rs:798-808 | two executions of one request have at least the capacity of other completions between them |
| RequestCache.GuardsAlwaysHold | src/protocol_host.rs:820-877 | a guard always still owns its entry when it completes or is dropped |
| RequestCache.WaitersGetTheResult | src/protocol_host.rs:269-291 | a duplicate that waited gets the owner's frames right after the completion |
| RequestCache.LateWaiters | src/protocol_host.rs:269-291 | and still gets them while fewer than the capacity of other requests completed since; after that the request is new again unless it was run again |
| RequestCache.KnownIdsFromHistory | src/protocol_host.rs:779-808 | a request is known exactly while it has an owner or is among the last completions |
| Interactions.Broker.constructor | src/interactions.rs:61-70 | an empty registry with a bound of at least one |
| Interactions.Broker.MarkAsResolved | src/interactions.rs:72-82 | the identifier is remembered as resolved, the oldest is forgotten |
| Interactions.Broker.Register | src/interactions.rs:99-126 | a staged answer is taken at once, a resolved or waiting identifier is refused, otherwise a waiter with a new generation |
| Interactions.Broker.Resolve | src/interactions.rs:128-159 | delivered, staged, or refused with its reason |
| Interactions.Broker.DropGuard | src/interactions.rs:167-177 | only the slot of that generation is removed |
| Interactions.RunKeepsInv | src/interactions.rs:45-195 | over every run of register, resolve, expiry and guard drop the registry agrees with its history |
| Interactions.AcceptedReachesOnePlace | src/interactions.rs:128-159 | accepted responses are exactly those delivered or staged, none is both, and no place gets two |
| Interactions.SlotsAndResolvedApart | src/interactions.rs:99-159 | waiting and staged identifiers are never among the resolved, and staged ones never exceed the bound |
| Interactions.ResolvedForgottenInOrder | src/interactions.rs:72-82 | what is remembered is the tail of what was resolved, so an identifier resolves again only after the bound of others |
| Interactions.OldGuardSparesNewWaiter | src/interactions.rs:161-177 | dropping an old guard removes a newer waiter's slot if and only if the guard was issued after the generation counter saturated |
| Interactions.OwnGuardRemovesWaiter | src/interactions.rs:167-177 | a guard removes its own waiter |
| Interactions.WaitingMayExceedMaximum | src/interactions.rs:99-126 | the bound does not apply to waiting slots |
| Interactions.SaturatedGuardHitsNewWaiter | src/interactions.rs:115 | the saturated case is reachable |
| InteractionAnswers.OpenWaiterGetsResponse | src/interactions.rs:137-143 | in every run a response to an identifier with an open waiter is accepted and reaches exactly that waiter, whatever else the registry holds |
| InteractionAnswers.ResolutionMeaning | src/interactions.rs:128-159 | in every run the answer to a response follows from the history: already resolved if resolved lately or a response is held, delivered to an open waiter, expired for a closed one, and held exactly if fewer slots than the bound are taken |
| InteractionAnswers.OtherResponses | src/interactions.rs:144-158 | a response that is not delivered is accepted exactly if it is held, and a closed waiter loses its slot |
| InteractionAnswers.RegistrationMeaning | src/interactions.rs:99-126 | in every run a registration is refused exactly for an identifier resolved lately or waited for, is answered by the very response held for it, and otherwise waits |
| InteractionAnswers.ResponsesAreAddressed | src/interactions.rs:128-159 | a waiter only gets a response, with its value, that was offered to its own identifier |
| InteractionAnswers.SlotsMeaning | src/interactions.rs:45-58 | in every run the registry holds exactly the identifiers waited for and those a response is held for, never both, and none resolved lately |
| RuntimeEntry.SharedEntry.constructor | src/retained.rs:1429-1444 | a ready entry with the spec's session |
| RuntimeEntry.SharedEntry.TryAdmit | src/retained.rs:1525-1611 | one round of admission: disposed, repeated, busy, handed off, compaction without a session, or admitted with the current session |
| RuntimeEntry.SharedEntry.Remember | src/retained.rs:1601-1609 | the last 1,024 admitted identifiers are remembered |
| RuntimeEntry.SharedEntry.RecordSession | src/retained.rs:1676-1692 | the owner's reported session is kept |
| RuntimeEntry.SharedEntry.Release | src/retained.rs:1693 | the turn holds the process no more |
| RuntimeEntry.SharedEntry.Finish | src/retained.rs:1720-1749 | the turn that owns the slot clears it and sets the status; any other changes nothing |
| RuntimeEntry.SharedEntry.RaiseDisposed | src/retained.rs:1456-1457 | the disposed flag is raised before the lock is taken |
| RuntimeEntry.SharedEntry.DisposeLocked | src/retained.rs:1458-1468 | the active turn is cancelled and the status set |
| RuntimeEntry.RunKeepsInv | src/retained.rs:1503-1752 | over every run: the active turn is the newest, and signals, requests and status agree |
| RuntimeEntry.RunKeepsRecency | src/retained.rs:1601-1609 | over every run the remembered identifiers are the last admissions |
| RuntimeEntry.HoldsIffSpared | src/retained.rs:1720-1749 | the turns in a set of early phases are the active turn at every moment of a run if and only if no finish found one of them in the slot under its own identifier |
| RuntimeEntry.FinishHoldsIff | src/retained.rs:1720-1749 | one finish keeps the holder in the slot if and only if it spares it |
| RuntimeEntry.OneExecutorAtATime | src/retained.rs:1547-1600 | in every run that spares executing turns, a turn whose executor has not returned is the active turn, so at most one executor runs |
| RuntimeEntry.PromptRunsSpare | src/retained.rs:1601-1609 | runs in which every turn finishes with at most 1,024 later admissions spare every holder |
| RuntimeEntry.AdmissionsAreSpaced | src/retained.rs:1537-1546 | in every run two admissions of one identifier have at least 1,024 others between them |
| RuntimeEntry.LateFinishIsHarmless | src/retained.rs:1720-1749 | in every run a finish after losing the slot changes nothing if and only if its identifier is not the newest turn's, hence whenever at most 1,024 turns were admitted since |
| RuntimeEntry.LateFinishAllowsTwoExecutors | src/retained.rs:1720-1749 | with one admission more, a run reaches two executors at once |
| RuntimeEntry.LateFinishLosesReport | src/retained.rs:1676-1692 | and a run in which the next turn is not given the last reported session |
| RuntimeEntry.RunKeepsSessions | src/retained.rs:1676-1692 | over every run that spares unrecorded turns the session is the last recorded report |
| RuntimeEntry.SessionsFollowReports | src/retained.rs:1676-1692 | in those runs each turn is given the last session reported by the turns admitted before it, else the spec's |
| RuntimeEntry.ReportKeptIff | src/retained.rs:1681-1692 | a report made after another turn finished is kept if and only if that finish spared the reporting turn |
| RuntimeEntry.LastReportedMeaning | src/retained.rs:1610 | the last report is the one with the highest index |
| RuntimeEntry.SessionNeverForgotten | src/retained.rs:1681-1692 | in every run a known session stays known |
| RuntimeEntry.AtMostTwoRounds | src/retained.rs:1525-1584 | in every run the admission loop takes at most two rounds and the second always answers |
| RuntimeEntry.DisposedAdmitsNothing | src/retained.rs:1526-1536 | once the flag is up no run admits another turn |
| RuntimeEntry.StatusMeaning | src/retained.rs:1456-1468 | in every run: Busy exactly while a turn is active; after disposal Stopping with the turn cancelled exactly while one is active, else Stopped |
| RuntimeHistory.StatusFromHistory | src/retained.rs:1720-1749 | in every run the slot is taken exactly if a turn was admitted since it was last emptied, and the status is determined by that, by disposal and by the outcome that emptied the slot last |
| RuntimeHistory.IdleMeaning | src/retained.rs:1733-1747 | an idle runtime that is not disposed is Degraded if and only if the turn that emptied the slot last failed with the network, the transport, the provider process or an indeterminate result, and otherwise Ready |
| RuntimeHistory.AdmissionMeaning | src/retained.rs:1525-1611 | in every run a round of admission is answered from the history: disposal, the last 1,024 identifiers, a holder that has not yielded, a compaction without a session, and nothing else, stand against it |
| RuntimeHistory.CompactionNeedsSession | src/retained.rs:1585-1592 | a manual compaction that nothing else stands against is admitted if and only if the spec names a session or some turn has reported one |
| RuntimeHistory.SubmitMeaning | src/retained.rs:1509-1519 | a request is refused without a round exactly if it is submitted after disposal |
| EventSink.ChannelEventSink.EmitRuntime | src/retained.rs:2103-2119 | the next number is used and the envelope is delivered, or the channel is closed |
| EventSink.ChannelEventSink.Emit | src/retained.rs:2033-2071 | a compaction start while one is open is dropped, everything else is forwarded; the open compaction and the announced session are tracked |
| EventSink.ChannelEventSink.CloseOpenCompaction | src/retained.rs:2073-2094 | a compaction left open is reported as failed |
| EventSink.RunInvocation | src/retained.rs:1632-1711 | the delivered stream and the final outcome, for any executor and any point at which the receiver goes away |
| EventSink.AttemptsWellFormed | src/retained.rs:1632-1711 | every stream starts with the start event, has exactly one terminal event and it is last, never starts a compaction while one is open and closes each before the end |
| EventSink.SuccessWasDelivered | src/retained.rs:1694-1711 | a success has delivered the whole stream, ending in the completion with that result |
| EventSink.ForwardedAlternates | src/retained.rs:2033-2071 | no two compaction starts are forwarded without a completion or failure between them, whatever the executor emits |
| ProviderStream.ForwardedNext | src/retained.rs:2033-2060 | event by event: each comes through in its place unless it starts a compaction while one is open |
| ProviderStream.OnlyStartsAreDropped | src/retained.rs:2033-2060 | every event of the executor that starts no compaction is seen, once and in order |
| ProviderStream.StreamMeaning | src/retained.rs:1632-1711 | the stream is the opening, the executor's events, the failure of a compaction left open under its own trigger, and the terminal event with the executor's own result or failure |
| ProviderStream.ExecutorIsSeen | src/retained.rs:1643-1711 | apart from compaction starts and that failure, the provider events of the stream are exactly the executor's |
| ProviderStream.SessionMeaning | src/retained.rs:1676-1680 | the session reported is the successful result's own, or else the last one announced |
| ProviderStream.OutcomeMeaning | src/retained.rs:1694-1711 | a turn succeeds with a result if and only if its receiver has the completion carrying it, and otherwise fails with the failure its stream ends in, or for want of a receiver |
| Framing.CheckSize | src/protocol_stream.rs:52-57 | empty and oversized frames are refused |
| Framing.ReadFrame | src/protocol_stream.rs:59-72 | a clean end, a frame, or the error for a cut or bad size |
| Framing.WriteFrame | src/protocol_stream.rs:74-85 | the encoding is appended, or a bad size refused |
| Framing.NextFrameOfEncode | src/protocol_stream.rs:59-85 | reading what was written gives the payload and the rest |
| Framing.ReadAllOfWire | src/protocol_stream.rs:59-85 | any list of written frames reads back, then the stream ends cleanly |
| Framing.CutAnywhere | src/protocol_stream.rs:59-72 | a stream cut anywhere gives the whole frames before the cut and a clean end exactly at a frame boundary |
| Framing.FrameIsEncoded | src/protocol_stream.rs:59-85 | an accepted frame re-encodes to the bytes it came from |
| Framing.CleanStreamsAreWires | src/protocol_stream.rs:59-85 | only written streams end cleanly |
| Framing.FrameBytes | src/protocol_stream.rs:74-85 | a frame byte by byte: the size with its most significant byte first, then the payload |
| Framing.ReadMeaning | src/protocol_stream.rs:59-72 | any stream: a clean end only if empty, a size of zero or above 2 MiB is named in the error, a short stream ends too early, and otherwise the announced bytes are the payload |
| PrefixMatch.BuildFailure | src/diagnostic_scrub.rs:204-214 | entry i is the longest proper border of the first i + 1 bytes |
| PrefixMatch.FallStep | src/diagnostic_scrub.rs:245-247 | one step down the table keeps the longest match that the next byte can extend |
| PrefixMatch.Record | src/diagnostic_scrub.rs:216-233 | backing off to a boundary and to the last content still covers every match inside, and what is recorded starts at a match |
| PrefixMatch.ReadByte | src/diagnostic_scrub.rs:243-251 | after each byte the state is the longest prefix that ends there and nothing given up is lost |
| PrefixMatch.ScanText | src/diagnostic_scrub.rs:204-260 | the scan covers every match of the needle |
| PrefixMatch.KnownPrefixRanges | src/diagnostic_scrub.rs:199-261 | every place where eight or more bytes of complete text begin the value is inside a range up to its last character that is not whitespace; every range starts on a boundary at such a match |
| Utf8.BoundaryStartsChar | src/diagnostic_scrub.rs:221-223 | in valid text the boundaries are the starts of characters |
| Utf8Meaning.ValidIff | src/diagnostic_scrub.rs:84-86 | bytes are valid text if and only if they encode some sequence of Unicode scalar values |
| Utf8Meaning.ReadEncodesBack | src/diagnostic_scrub.rs:236-238 | each character read is the encoding of the code point it is read as |
| Utf8Meaning.RangeEnds | src/diagnostic_scrub.rs:216-233 | each range ends right after the last content of its match, together with three full stops or an ellipsis that follow there |
| Scrub.MatchIndices | src/diagnostic_scrub.rs:156-159 | non-overlapping occurrences, and every occurrence starts inside one |
| Scrub.PercentDecode | src/diagnostic_scrub.rs:65-83 | each decoded byte stands for one input byte or one escape, and all input is used |
| PercentEscapes.ParseHexMeaning | src/diagnostic_scrub.rs:71-77 | two bytes parse to a value if and only if they are its two hexadecimal digits in either case, or a plus sign and its one digit |
| PercentEscapes.WritingDecodes | src/diagnostic_scrub.rs:65-83 | whichever bytes are escaped and in whatever case, decoding gives back exactly the bytes written |
| PercentEscapes.EscapeAllDecodes | src/diagnostic_scrub.rs:65-83 | a text that escapes every byte decodes to those bytes |
| PercentEscapes.WrittenSecretIsHidden | src/diagnostic_scrub.rs:41-110 | however its bytes are written, every byte of the text that writes a byte of a secret's match, up to its last content, is replaced |
| Scrub.OffsetsIncrease | src/diagnostic_scrub.rs:69-83 | the offset map is strictly increasing |
| Scrub.BoundariesMap | src/diagnostic_scrub.rs:69-91 | and sends character boundaries to character boundaries |
| Scrub.MappedUnion | src/diagnostic_scrub.rs:87-91 | a byte is covered for the decoded view exactly when a covered decoded byte stands for it |
| Scrub.SortRanges | src/diagnostic_scrub.rs:92 | the same ranges in order |
| Scrub.Merge | src/diagnostic_scrub.rs:93-100 | merged ranges are sorted, separate, not touching, well formed, and have the same union |
| Scrub.Replace | src/diagnostic_scrub.rs:101-109 | the output keeps every byte outside the union in order, puts one mark for each stretch, and never splits a character |
| Scrub.RedactByUnion | src/diagnostic_scrub.rs:93-109 | only the union of the ranges matters |
| Scrub.ValueRanges | src/diagnostic_scrub.rs:152-159 | the ranges of a value are whole characters and hide it |
| Scrub.CredentialRanges | src/diagnostic_scrub.rs:112-196 | every value is hidden, and every range is a value's match or comes from another source |
| Scrub.ScrubText | src/diagnostic_scrub.rs:41-110 | withheld exactly when the decoded view is not valid text; otherwise the text with the union of both views' ranges replaced, those found by other means included; every byte that stands in either view for a byte of a match up to its last content is replaced; the output is valid text |
| Scrub.HitBytesAreWithin | src/diagnostic_scrub.rs:216-233 | every byte of a covered match up to its last content is replaced |
| Launcher.ReadQuoted | src/remote_shell.rs:1027-1029 | a quoted string reads back as itself |
| Launcher.JoinedReadsBack | src/remote_shell.rs:1027-1029 | any list of quoted words joined by blanks reads back as that list |
| Launcher.ReadsIfSet | src/remote_shell.rs:668-675 | the kept-variable form is one word when the variable is set and nothing when it is not |
| Launcher.ValidEnvironmentName | src/remote_shell.rs:1031-1035 | exactly the names a shell can assign |
| Launcher.AppendEnvironment | src/remote_shell.rs:1004-1025 | refused for the first bad entry, otherwise one word per entry |
| Launcher.AppendArguments | src/remote_shell.rs:681-686 | refused for the first argument that is not UTF-8, otherwise one word each |
| Launcher.AppendSafe | src/remote_shell.rs:666-677 | the safe variables that are set, in order |
| Launcher.BuildRemoteLauncher | src/remote_shell.rs:648-689 | refused for the first bad part of the command; otherwise the shell reads exactly the login environment, the safe variables that are set, the environment, program and arguments |
| RemoteProcess.LaunchableIff | src/remote_shell.rs:1004-1035 | a command is refused if and only if some part is not UTF-8 or some variable name is none a shell can assign |
| RemoteProcess.LaunchMeaning | src/remote_shell.rs:648-689 | by the rules of the env utility every variable has the value set last by the command, or else the kept, the login's or the inherited one; and the program gets exactly its arguments if and only if its name holds no equals sign |
| RemoteCommand.CommandReads | src/remote_shell.rs:626-646 | the shell reads the command as intended, with each path and the clean-up command as one word |
| RemoteCommand.CommandReturnsStatus | src/remote_shell.rs:638-639 | the word that saves the launcher's status and the word that is returned carry the same value |
| RemoteCommand.TrapUnquotes | src/remote_shell.rs:634-644 | read a second time the clean-up word removes exactly the control directory |
| CommandRun.CommandRuns | src/remote_shell.rs:635-639 | whatever succeeds or fails, even the change of directory, the launcher runs once, its status is saved next, the control directory is removed and the command exits; the process is recorded and the trap installed only if everything before succeeded |

## Left out

- Tokio tasks, channels and timeouts: a lock-held section, a channel send and a routed event are atomic steps; timeouts and lost peers are free choices.
- The client's sequence load, channel send and sequence store are one step, although the source does not hold a lock across them; an old receive loop may go on reading after its connection was invalidated, and does in the model.
- Pipeline: one runtime and one host log per invocation; reuse of an invocation identifier after 1,024 admissions, disposal, and failure frames sent by a stopped pump are not part of it.
- Pipeline: invocation logs stay below the largest 64-bit sequence number.
- RemoteClient.RemoteRuntimeClient.RouteEvent: the interrupt request sent after a full or closed channel, and handing interactions to a handler, because neither changes the invocation table or its channels.
- RemoteHost.RemoteRuntimeHost.AppendNext: the failure frame and the interrupt that follow a refused append, because they carry no event.
- AttachLoop.AttachRuntime: live events between two pages are not interleaved, and channels have room, because the page bound speaks of a quiescent host; the pipeline results cover interleaving and full channels.
- AttachLoop.AttachPage: the same quiescent host and channels with room.
- AttachLoop.RoutePage: channels have room; `RouteEvent` models the others.
- Request retries, recovery backoff and the reconnecting loop of the client: they only repeat the attach and the resend that are modelled.
- JSON, SHA-256 and frame contents: frames are byte strings or opaque values, and a fingerprint is equal exactly for equal requests.
- RuntimeEntry: input validation, the request built for the executor and the textual detail of a failure are not part of the state.
- EventSink: concurrent emission from several executor tasks; the sink's counter is unbounded.
- Scrub.CredentialRanges: the regular expressions, quoted values and token fragments are an arbitrary further source of well-formed ranges, and base64 and JSON forms of a secret are further values.
- Scrub.MatchIndices: overlapping occurrences share one range, as in the source; full coverage comes from the prefix match.
- ShellWords: only the part of the shell language that generated text uses; anything else makes the reader fail. Values of `$?` and of the exit code variable are taken to need no quotes.
- RemoteProcess: the environment that the launcher's shell passes on is a parameter; of the `env` utility only `-i`, assignments and the command are modelled.
- CommandRun: a command's success is a free choice, and signals that run the trap early are not part of it.
- Launcher: text from the operating system is either a string or not UTF-8; control characters have no meaning beyond the shell's.
- Provider adapters, process trees, Docker and SSH carriers, discovery, sandboxing and version gating: operating-system work or settled by reading one branch.
