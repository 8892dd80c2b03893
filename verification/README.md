# Offdesk: what its streaming, delivery and recovery code keeps

A Dafny model of the parts of Offdesk that make promises over whole runs, with proofs of those promises.
`dafny verify dfyconfig.toml` checks everything.

* **Live screencast** (`Screencast*.dfy`). One node sends frames of a browser, many viewers watch. Classes
  `Fanout` and `Streams` are the hub's two objects, field by field; `ScreencastTable.Next` says what one
  call does to the whole table, and every method is proved to be such a step. Over any run of calls, with
  receivers dropped at any moment, a ledger per browser records every frame, every message to the node and
  every viewer's channel; the theorems of `ScreencastRuns` speak about that ledger. `ScreencastDelivery` tells from the calls alone
  what every viewer and the node are sent, and when. `ScreencastNode` adds
  the node's gate, where messages may arrive in any order.
* **Bridge** (`Bridge*.dfy`). The outbox, the send loop, and the server's store as a step system with any
  number of connections at once; the table of command results as a class; and, in `BridgeRepeats`, commands
  looked up, carried out and saved in separate steps, again on any number of connections. `BridgeLog` lets a
  run's updates queue their events while connections send, and says what the server then knows of the run.
* **Composer** (`Composer*.dfy`, `Attach*.dfy`). Sending a message from the browser's editor: the hub's
  receipts table as a step system (any number of calls at once, crashes and failed writes anywhere), and
  the node's writer queue with partial writes and failing flushes. `ComposerAnswers` and `AttachHistory` tell
  from the steps alone what each side stores, writes and answers. `ComposerEndToEnd` is one step system of
  both and of the requests between them, with failed sends, timeouts and late answers, and `ComposerOutcomes`
  says what decides about a message there.
* **Event log** (`Webhook*.dfy`). What an update of a run tells, its numbering over any sequence of updates
  and interruptions, how it is queued for several integrations over runs of updates, and how often a delivery
  is tried.
* **Managed connector** (`Connector.dfy`, `Supervisor.dfy`). Three fields against the history of probes and
  restarts they stand for, and the loop around the child process.
* **Hooks** (`HookCommands.dfy`, `ClaudeHooks.dfy`, `CodexNotify.dfy`), **versions** (`Versions.dfy`,
  `SemVer.dfy`) and **relay** (`RelayNames.dfy`, `RelayRegions.dfy`): transformations and orders.

`Wrappers`, `Sequences`, `Numbers` and `Strings` hold what several modules share.

Assumptions about the outside are the enabling conditions of the step systems and the parameters of the
methods: a bridge server acknowledges only what it has stored and drops an event whose number it has;
outbox ids only grow (the column is `AUTOINCREMENT`); a request for a node has an id of its own and arrives at
most once; every database call, write, flush, probe, start of a screencast and process call may fail, and which
ones do is a parameter.

Where the code does not do what is said about it, the model follows the code:

* `docs/agent-bridge-protocol.md` promises a repeated command id the same result. The code runs it again
  after a failed lookup, while the first one's result is not saved (it never is, or a second connection looks it
  up meanwhile), and after the purge of results older than a week. `BridgeRepeats.RepeatRunsIff` is exact,
  `AloneRepeatRunsIff` for one connection at a time; `CarriedOutTwice`, `CarriedOutUnlooked` and
  `CarriedOutAtOnce` show runs. A message the hub cannot read is answered 400 whatever was answered before.
* The same document promises that an acknowledged event is not sent again. It is when the hub heard the
  acknowledgement and could not record it, and when a connection had fetched the event before the acknowledgement
  came in on another one. `BridgeEvents.SentAgainIff` is exact, `AloneSendsAgainIff` for one connection at a time;
  `UnrecordedSendsAgain` and `OverlapSendsAgain` show runs. One connection at a time that records what it hears
  keeps the promise (`BridgeEvents.AloneNeverSendsAgain`).
* A bridge is meant to have one connection. Two calls of `sync` at the same time (`crates/hub/src/bridge.rs:86-109`)
  can both find no handle to cancel, both start a connection, and then only the newer one is known.
* A run's events are numbered without gap or repeat only while nothing is told after an interrupted update or
  after the state of an ended run was purged (`WebhookFaults.NumberedIff`, and `BridgeLog.ServerIsNumberedIff` for
  what a bridge's server has of them).
* The first restart delay of the connector is not capped by the maximum (`Connector.DelayIsCappedIff`). The only
  policy in use starts at 15 s with a maximum of 600 s, and one that starts above its maximum cannot be built
  outside the module, so this never shows.
* A delivery is given up on after a day, which allows 34 recorded attempts; a wall clock that is set back by more
  than 25 minutes and 15 seconds in all while attempts run makes room for more (`WebhookRetry.AtMost34Iff`).
* Installed hooks are recognised by the program's path, so a program whose path lacks "offdesk" is not
  uninstalled (`ClaudeHooks.UpdateForgetsInstallIff`, `CodexNotify.RestoredIff`).
* Version identifiers above 64 bits are compared as text, and a version whose main numbers do not fit is not read
  (`SemVer.NewerIsHigherIff` and `SemVer.UnreadableIsNeverNewer` say exactly when that goes against Semantic
  Versioning; `SemVer.TooBigComparesAsText` is a family of examples).
* With an epoch clock seeded 0 a late straggler Stop is unconditional at the node
  (`ScreencastNode.SeedZeroCanStopAWatchedBrowser`).

## Model

| member | source | states |
|---|---|---|
| Screencast.Clamped | crates/hub/src/agent_browser_stream.rs:40-47 | client values come into the allowed ranges, and values already there stay |
| Screencast.WantedIsMax | crates/hub/src/agent_browser_stream.rs:111-116 | reducing the viewers' parameters, in any order of the map, gives their pointwise maximum, none only without viewers |
| Screencast.WantedIsUnique | crates/hub/src/agent_browser_stream.rs:111-116 | there is only one such maximum, so the map's order does not matter |
| Screencast.WantedStaysInRange | crates/hub/src/agent_browser_stream.rs:39-56 | clamped viewers never make the node run outside the allowed ranges |
| ScreencastFanout.Fanout.Effective | crates/hub/src/agent_browser_stream.rs:111-116 | the loop over the viewers finds the maximum |
| ScreencastFanout.Fanout.Reconcile | crates/hub/src/agent_browser_stream.rs:118-130 | a changed maximum is started or stopped with the next epoch, an unchanged one says nothing |
| ScreencastFanout.Fanout.AddViewer | crates/hub/src/agent_browser_stream.rs:132-154 | the new viewer is shown the newest frame, the others are as they were |
| ScreencastFanout.Fanout.RemoveViewer | crates/hub/src/agent_browser_stream.rs:156-167 | the viewer goes, with the last one the newest frame too |
| ScreencastFanout.Fanout.SetParams | crates/hub/src/agent_browser_stream.rs:169-175 | only that viewer's parameters change |
| ScreencastFanout.Fanout.OnFrame | crates/hub/src/agent_browser_stream.rs:177-196 | idle viewers are sent the frame, waiting ones get it in their slot, and only without viewers the node is acked; `ScreencastDelivery.NodeWaits` says what that means over runs |
| ScreencastFanout.Fanout.ViewerAck | crates/hub/src/agent_browser_stream.rs:198-219 | the viewer draws its slot next, and the node is acked for the first ack of a frame only |
| ScreencastFanout.Fanout.Destroy | crates/hub/src/agent_browser_stream.rs:221-226 | every viewer still listening is told `Destroyed`; `ScreencastDelivery.DestroyedIsTold` says so of their channels |
| ScreencastFanout.Fanout.RestartAction | crates/hub/src/agent_browser_stream.rs:228-233 | everything is acked and the maximum started again |
| ScreencastStreams.Streams.AddViewer | crates/hub/src/agent_browser_stream.rs:283-308 | one step of the table: a new fan-out starts above every epoch before it |
| ScreencastStreams.Streams.RemoveViewer | crates/hub/src/agent_browser_stream.rs:330-332 | one step of the table: an empty fan-out is dropped and its epoch remembered |
| ScreencastStreams.Streams.SetParams | crates/hub/src/agent_browser_stream.rs:334-342 | one step of the table |
| ScreencastStreams.Streams.ViewerAck | crates/hub/src/agent_browser_stream.rs:344-346 | one step of the table |
| ScreencastStreams.Streams.OnFrame | crates/hub/src/agent_browser_stream.rs:348-363 | one step of the table: a straggler is answered with the remembered epoch or the clock |
| ScreencastStreams.Streams.DropIfEmpty | crates/hub/src/agent_browser_stream.rs:321-327 | a fan-out nobody watches is retired with its epoch, any other stays |
| ScreencastStreams.Streams.Retire | crates/hub/src/agent_browser_stream.rs:271-279 | the clock covers the retired epoch, which is remembered only if asked |
| ScreencastStreams.Streams.DestroyBrowser | crates/hub/src/agent_browser_stream.rs:365-374 | one step of the table: the viewers are told, nothing is remembered (over runs, `ScreencastDelivery.DestroyedIsTold`) |
| ScreencastStreams.Streams.DestroyMachine | crates/hub/src/agent_browser_stream.rs:376-392 | one step of the table for every browser of the machine and no other |
| ScreencastStreams.Streams.ResyncMachine | crates/hub/src/agent_browser_stream.rs:394-421 | one step of the table: survivors restarted, the others ended, each survivor named once in the answer |
| ScreencastInvariant.StepKeepsKeyOk | crates/hub/src/agent_browser_stream.rs:106-233 | every operation keeps, for every browser, the whole invariant of counters, viewers, epochs and channels |
| ScreencastRuns.RunKeepsKeyOk | crates/hub/src/agent_browser_stream.rs:282-422 | that invariant holds for every browser after every run |
| ScreencastRuns.NoStall | crates/hub/src/agent_browser_stream.rs:132-219 | while the node waits, every viewer still listening is waiting and holds the newest frame, sent or in its slot |
| ScreencastRuns.DebtFalls | crates/hub/src/agent_browser_stream.rs:178-219 | between frames the acks a viewer owes fall by one with each it gives, whatever others do |
| ScreencastRuns.TwoAcksRelease | crates/hub/src/agent_browser_stream.rs:178-219 | with no new frame two acks of any one listening viewer release the node, and it is told |
| ScreencastRuns.EpochsInOrder | crates/hub/src/agent_browser_stream.rs:241-252 | of two Start or Stop messages about a browser the later has the higher epoch; only a Stop answering a straggler may repeat the newest |
| ScreencastRuns.RememberedEpochs | crates/hub/src/agent_browser_stream.rs:245-252 | a live browser has no remembered epoch, and none is ahead of the clock |
| ScreencastRuns.AttachedViewer | crates/hub/src/agent_browser_stream.rs:82-91 | a viewer gets a subsequence of the node's frames in order, one more than its acks exactly while it waits, and its slot holds the newest frame |
| ScreencastRuns.DetachedViewer | crates/hub/src/agent_browser_stream.rs:221-226 | a viewer that is gone got frames in order, then at most one `Destroyed`, and its number never returns |
| ScreencastRuns.PartedForGood | crates/hub/src/agent_browser_stream.rs:365-374 | nothing is sent to a viewer after it left or was told `Destroyed` |
| ScreencastRuns.AckAccounting | crates/hub/src/agent_browser_stream.rs:198-219 | the node gets at most one ack for each frame, in order, and never more acks than frames |
| ScreencastRuns.NoStaleAckAfterResync | crates/hub/src/agent_browser_stream.rs:228-233 | after a resync every ack is for a frame that came after it |
| ScreencastRuns.WantedIsRunning | crates/hub/src/agent_browser_stream.rs:118-130 | every live fan-out runs its viewers' maximum and the newest message said so; after the last viewer left it is a Stop |
| ScreencastRuns.ToldExactlyOnChange | crates/hub/src/agent_browser_stream.rs:132-175 | joining, leaving and changing parameters tell the node something exactly when the maximum changed |
| ScreencastRuns.ResyncStartsSurvivors | crates/hub/src/agent_browser_stream.rs:394-421 | a resync starts every surviving browser with its maximum and the next epoch, and no other |
| ScreencastDelivery.AckedIff | crates/hub/src/agent_browser_stream.rs:198-219 | over every run the node is acked exactly when a viewer that owes an ack acks a frame newer than every one acked since anybody watches and since the last resync; no other call is ever an ack |
| ScreencastDelivery.AckedFrame | crates/hub/src/agent_browser_stream.rs:205-219 | and the frame it is acked for is the one that viewer was sent last |
| ScreencastDelivery.ToldOtherwise | crates/hub/src/agent_browser_stream.rs:348-363 | a frame, an ack, a dropped receiver or a destroyed browser tells the node nothing but that ack, or Stop to a frame nobody watches |
| ScreencastDelivery.NodeWaits | crates/hub/src/agent_browser_stream.rs:177-196 | a frame somebody watches tells the node nothing and leaves it waiting until such an ack, a resync, or the last viewer goes |
| ScreencastDelivery.ViewsIff | crates/hub/src/agent_browser_stream.rs:132-167 | who views: whoever joined, was not removed, and whose browser was not destroyed |
| ScreencastDelivery.SentExactly | crates/hub/src/agent_browser_stream.rs:177-219 | what a viewer that stays is sent by each call: the frame that comes if it owes no ack, the newest one at its ack if that is newer, and nothing else |
| ScreencastDelivery.JoinedIsShownNewest | crates/hub/src/agent_browser_stream.rs:132-154 | a new viewer is shown exactly the newest frame since anybody watches, acked or not, if there is one |
| ScreencastDelivery.ParamsAreAsked | crates/hub/src/agent_browser_stream.rs:169-175 | a viewer counts with what it asked for last, when it joined or since |
| ScreencastDelivery.PartsExactly | crates/hub/src/agent_browser_stream.rs:221-226 | whoever stops viewing was told `Destroyed` exactly if the browser went and it still listened, and nothing else |
| ScreencastDelivery.DestroyedIsTold | crates/hub/src/agent_browser_stream.rs:365-421 | when a browser or its machine is destroyed, or a resync does not name it, it is live no more, and each of its viewers has parted with `Destroyed` as its last message if it still listened |
| ScreencastDelivery.RememberedExactly | crates/hub/src/agent_browser_stream.rs:245-252 | the epoch remembered is that of the Stop sent when the last viewer left, until somebody joins or the browser is destroyed |
| ScreencastDelivery.OthersStay | crates/hub/src/agent_browser_stream.rs:282-422 | a call about another browser or machine changes nothing about this one and tells its node nothing |
| ScreencastNode.Tab.ScreencastStart | crates/machine/src/agent_browser/mod.rs:1217-1243 | an older epoch is ignored, any other becomes the newest and runs the screencast if Chromium accepts it, and nothing if not |
| ScreencastNode.Tab.ScreencastStop | crates/machine/src/agent_browser/mod.rs:1338-1356 | an older epoch is ignored, any other becomes the newest and stops the screencast |
| ScreencastNode.NodeFollowsNewest | crates/machine/src/agent_browser/mod.rs:1224-1230 | in whatever order messages arrive, repeated or lost, the node ends with the last copy of the newest one, running nothing if Chromium refused that |
| ScreencastNode.NodeRunsWhatViewersWant | crates/hub/src/agent_browser_stream.rs:241-252 | end to end: once the newest message is accepted a watched browser runs exactly its viewers' maximum and one that was left is stopped; what is refused does not run |
| ScreencastNode.SeedZeroCanStopAWatchedBrowser | crates/hub/src/agent_browser_stream.rs:255-268 | a run in which a clock seeded 0 lets a late straggler Stop end a watched screencast |
| BridgeOutbox.WaitingIsWhatIsUnacked | crates/hub/src/db/integrations.rs:114-123 | the query selects exactly the unacknowledged events after the last one sent, in order |
| BridgeOutbox.Connection.SendPending | crates/hub/src/bridge.rs:268-285 | the batched loop sends everything waiting, in order, and wherever the connection breaks it has sent a prefix of that |
| BridgeEvents.ArrivesInOrder | docs/agent-bridge-protocol.md:87-89 | what arrives first on a connection is stored already or is the very next event missing |
| BridgeEvents.SendLoopKeepsWireOk | crates/hub/src/bridge.rs:268-285 | one run of the send loop, broken anywhere, keeps every event up to the last one sent stored or under way |
| BridgeEvents.StepKeepsSafe | crates/hub/src/bridge.rs:263-315 | queuing, connecting, dropping, fetching, sending, arriving and acknowledging keep the invariant |
| BridgeEvents.ServerHasAPrefix | crates/hub/src/bridge.rs:7-10 | over every run the server's store is a gap-free prefix of the outbox in order, and nothing unstored is marked delivered |
| BridgeEvents.NothingLeftMeansAllStored | crates/hub/src/bridge.rs:7-10 | a long disconnect loses nothing: when a connection has nothing left to send or under way, the server has every event |
| BridgeEvents.DeliveredIsNeverFetched | crates/hub/src/db/integrations.rs:125-137 | an acknowledged event is never fetched again, on this or a later connection |
| BridgeEvents.WaitsIff | crates/hub/src/db/integrations.rs:114-137 | over every run a queued event a connection has not sent is waiting for it exactly when no acknowledgement of it was recorded |
| BridgeEvents.SentAgainIff | docs/agent-bridge-protocol.md:87-88 | over every run an event acknowledged before is sent exactly when an acknowledgement was heard and not recorded before its fetch, or came in after it on another connection; after a recorded one it is never fetched |
| BridgeEvents.AloneSendsAgainIff | crates/hub/src/bridge.rs:409-416 | with no other connection there an acknowledged event is sent again exactly when an acknowledgement heard before the fetch was not recorded |
| BridgeEvents.AloneNeverSendsAgain | docs/agent-bridge-protocol.md:87-88 | with no other connection there and every acknowledgement recorded, no acknowledged event is sent again |
| BridgeEvents.OverlapSendsAgain | crates/hub/src/bridge.rs:86-109 | a run of nine steps with two connections, in which any event is sent after it was acknowledged |
| BridgeEvents.UnrecordedSendsAgain | crates/hub/src/bridge.rs:409-416 | a run of ten steps with one connection after the other, in which any event is sent after an acknowledgement that could not be recorded |
| BridgeLog.ServerHasAStart | crates/hub/src/bridge.rs:7-10 | whatever fails and however many connections there are, the server has a start of what was queued about a run, without a gap |
| BridgeLog.ServerIsNumberedIff | crates/hub/src/webhooks.rs:183-205 | through any connections, failing updates and purges, what the server has of a run is numbered 1..n exactly when none of it was queued after an update that queued something and failed, or after a purge |
| BridgeLog.ServerIsToldWell | docs/agent-bridge-protocol.md:87-89 | even in the middle of an update, what the server has of a run is numbered 1..n, started first and once, and ended only last, if no update was interrupted |
| BridgeLog.ServerKnowsTheRun | crates/hub/src/webhooks.rs:161-205 | between such updates and with nothing left to send, the server knows whether the run ended and, until then, whether a request is open |
| BridgeCommands.Results.Save | crates/hub/src/db/integrations.rs:149-160 | a result replaces the earlier one, and every bridge's results older than a week go |
| BridgeCommands.Results.Handle | crates/hub/src/bridge.rs:399-440 | a command found is answered and not run, any other is run and saved, and an unreadable one is refused without either |
| BridgeRepeats.HandledIsItsSteps | crates/hub/src/bridge.rs:399-440 | looking up, carrying out and saving undisturbed does what the one call does |
| BridgeRepeats.TableIsWhatIsRetained | crates/hub/src/db/integrations.rs:139-160 | over every run of any connections the table holds exactly the results saved and neither replaced nor purged since |
| BridgeRepeats.FoundIff | crates/hub/src/bridge.rs:424-431 | any lookup answers from the table exactly when it works and a saved result is still there, and gives that result |
| BridgeRepeats.RepeatRunsIff | crates/hub/src/bridge.rs:424-440 | a repeated command runs again exactly when its lookup failed, the first one's result was not saved by then, or a purge more than a week later removed it; otherwise it gets the first one's answer |
| BridgeRepeats.AloneRepeatRunsIff | crates/hub/src/bridge.rs:424-440 | with one connection at a time the first command has ended before the repeat is looked up, and only how that end went, the lookup and a purge decide |
| BridgeRepeats.CarriedOutOnce | crates/hub/src/bridge.rs:424-432 | after a result is saved with nobody else at that command, no repeat whose lookups work runs again until a purge a week later, and all get that result |
| BridgeRepeats.CarriedOutTwice | crates/hub/src/db/integrations.rs:155-158 | a run on one connection in which everything works and a purge has a command run twice |
| BridgeRepeats.CarriedOutUnlooked | crates/hub/src/bridge.rs:425-430 | a run in which a saved command runs again after one failed lookup |
| BridgeRepeats.CarriedOutAtOnce | crates/hub/src/bridge.rs:424-438 | a run in which everything works and two connections both run a command |
| ComposerRuns.Receipts.Reserve | crates/hub/src/composer.rs:18-57 | a new id is reserved as pending; a known one gives its receipt if the content is the same, and is refused otherwise (which receipt over runs, `ComposerAnswers.RepeatIsAnswered`) |
| ComposerRuns.Receipts.Submit | crates/hub/src/composer.rs:59-114 | what one call leaves in the table, what it dispatches and what it answers, for every way the outside can fail |
| ComposerRuns.SubmittedIsItsSteps | crates/hub/src/composer.rs:59-114 | the whole call does what its separate steps do one after the other |
| ComposerInvariant.StepKeepsSafe | crates/hub/src/composer.rs:59-114 | every step of every call, and every crash, keeps rows, calls, dispatches and answers true to one fate per id |
| ComposerRuns.DispatchedAtMostOnce | crates/hub/src/composer.rs:1-2 | an id is dispatched at most once per user, machine and terminal, so never with two contents |
| ComposerRuns.AnswersAgree | crates/hub/src/composer.rs:48-56 | any two answers to an id that are not Unknown are the same receipt for the same content |
| ComposerRuns.RunSettles | crates/hub/src/composer.rs:108-112 | who reserved an id, for what content, and its final receipt never change |
| ComposerRuns.InvalidIsRefused | crates/hub/src/composer.rs:73-75 | an invalid message is always refused, never stored and never dispatched |
| ComposerRuns.RefusedStaysUnsent | crates/hub/src/composer.rs:92-98 | a message refused for want of control or by an old node is never dispatched later |
| ComposerRuns.AbandonedStaysUnknown | crates/hub/src/composer.rs:108-112 | a reservation lost to a crash is never dispatched again and is answered Unknown for ever |
| ComposerAnswers.RowsAre | crates/hub/src/composer.rs:18-57 | over every run a row is there exactly for what an insert reserved, with the content of the first, and holds what was decided once an update worked, and "pending" until then |
| ComposerAnswers.RepeatIsAnswered | crates/hub/src/composer.rs:48-56 | a repeated id whose insert and read work is answered "pending" until the receipt of the first call was saved, from then on exactly that receipt, and for any other content that it is another one |
| ComposerAnswers.AnsweredExactly | crates/hub/src/composer.rs:59-114 | over every run each answer is exactly what the steps of its own call came to: what is wrong with the message, the failed insert or read, what the row says, or what was decided |
| ComposerAnswers.DispatchedExactly | crates/hub/src/composer.rs:92-104 | and a message is dispatched exactly when its call is let through the gate |
| Attach.Writer.Handle | crates/machine/src/attach.rs:259-302 | what one command puts into the PTY, acknowledges, and whether the writer goes on |
| Attach.Writer.Serve | crates/machine/src/attach.rs:256-303 | the loop writes the commands in order and stops at the first that fails |
| AttachManager.Manager.Open | crates/machine/src/attach.rs:109-132 | one step: the name goes to a new attach with its own queue, whatever it named before |
| AttachManager.Manager.Close | crates/machine/src/attach.rs:177-182 | one step: only the handle goes |
| AttachManager.Manager.CloseAll | crates/machine/src/attach.rs:184-186 | one step: all handles go |
| AttachManager.Manager.SendPaste | crates/machine/src/attach.rs:77-94 | two steps: the call fails exactly when the attach is unknown or its channel is gone, and then nothing is queued |
| AttachManager.Manager.Await | crates/machine/src/attach.rs:95-98 | one step: Ok only after a positive acknowledgement, Unknown otherwise, never Failed |
| AttachManager.Manager.Send | crates/machine/src/attach.rs:134-175 | one step: accepted exactly when the attach is known and its channel still exists |
| AttachCalls.StepKeepsSafe | crates/machine/src/attach.rs:76-195 | opening, closing, calling, typing, writing and failing keep every queue, acknowledgement and verdict true |
| AttachCalls.DoneIsWritten | crates/machine/src/attach.rs:95-98 | a call that returns Ok has its paste and its Enter next to each other in the PTY |
| AttachCalls.FailedIsNeverWritten | crates/machine/src/attach.rs:83-94 | of a call that returns Failed not one byte was or will be written |
| AttachCalls.OnePieceOfEachCall | crates/machine/src/attach.rs:260-277 | whatever the verdict, a call's bytes are one unbroken start of its paste and Enter in one PTY |
| AttachCalls.NothingAfterAFailedWrite | crates/machine/src/attach.rs:271-283 | after a write that failed or was cut short, or a paste or Enter that was not flushed, nothing more goes into that PTY |
| AttachCalls.LatePasteIsUnknown | crates/machine/src/attach.rs:278-308 | a paste its stopped writer did not handle, even one accepted before the child was reaped, is never called Ok nor Failed |
| AttachCalls.WholeAndInOrder | crates/machine/src/attach.rs:258-303 | the PTY holds the accepted commands whole and in order, but for the last one of a writer that stopped |
| AttachCalls.StopsOnlyFor | crates/machine/src/attach.rs:256-303 | a running writer goes on exactly unless it is stopped or a command did not go well: a write cut short, a paste not delivered, a resize that failed |
| AttachHistory.HandlesAreNamed | crates/machine/src/attach.rs:109-186 | over every run a name means the newest attach opened under it and not closed since |
| AttachHistory.QueueIsAccepted | crates/machine/src/attach.rs:77-94 | over every run a channel was given exactly what was sent to it while it existed, in order, and as many as the writer took are handled |
| AttachHistory.AcksAreTold | crates/machine/src/attach.rs:259-277 | a writer tells exactly the calls whose paste it took, and that all went well exactly when paste and Enter were taken whole and both flushed |
| AttachHistory.AnsweredExactly | crates/machine/src/attach.rs:77-98 | over every run each call is answered Failed exactly for a name that means nothing or a channel that is gone, Ok exactly on hearing that all went well, Unknown on hearing otherwise or nothing |
| AttachHistory.TakenIsWritten | crates/machine/src/attach.rs:259-302 | over every run the PTY grows, at each command, by exactly the bytes its writes take, the Enter only after a paste taken whole and flushed |
| ComposerEndToEnd.StepKeepsSafe | crates/hub/src/machine_manager.rs:1854-1888 | registering, sending, failing to send, preparing, calling, reporting, hearing, timing out, hub and node steps and crashes keep hub, requests and node consistent |
| ComposerEndToEnd.DeliveredIsTrue | crates/machine/src/hub_conn.rs:1149-1176 | over every run of hub, requests and node: when anybody is answered Delivered, what the node made of that very message when it was dispatched and its Enter are next to each other in a PTY |
| ComposerEndToEnd.FailedIsTrue | crates/hub/src/machine_manager.rs:1854-1888 | over every run of hub, requests and node: when anybody is answered Failed, nothing dispatched under that id is or ever was in any PTY |
| ComposerEndToEnd.DeliveredHappens | crates/machine/src/hub_conn.rs:1149-1176 | every valid message has a run in which it is answered Delivered |
| ComposerOutcomes.BackIff | crates/machine/src/hub_conn.rs:1149-1176 | over every run a request is answered with exactly what ended it: the error of a send or of preparing, or what the call at the node returned |
| ComposerOutcomes.DecidedIff | crates/hub/src/machine_manager.rs:1854-1888 | over every run what is decided about an id is exactly one of: the refusal of the gate, the error of the send, what came back about its own dispatch, or Unknown when nobody answered in time |
| ComposerOutcomes.AnsweredAsDecided | crates/hub/src/composer.rs:105-114 | whoever is answered Delivered or Failed is answered what was decided so |
| Webhooks.Changes | crates/hub/src/webhooks.rs:85-133 | the list built by pushes has exactly the events that apply, each once and in order, with the state to remember |
| Webhooks.FirstTold | crates/hub/src/webhooks.rs:96-105 | a run told for the first time is started, and asks or ends if it does already |
| Webhooks.SilenceMeansSame | crates/hub/src/webhooks.rs:107-130 | an update that tells nothing has the status and request told before, and the progress, report and title unless they are gone |
| Webhooks.ToldIsChange | crates/hub/src/webhooks.rs:107-130 | every event told is told once and is a change of that very thing; a status only without a new request and before the end |
| WebhookLog.UpdateKeepsWellTold | crates/hub/src/webhooks.rs:172-205 | one whole update keeps the log numbered, framed and true to the state |
| WebhookLog.LogIsWellTold | crates/hub/src/webhooks.rs:161-205 | over any updates in which `ended` does not revert: numbers 1..n, started first and once, ended last exactly when the run ended, and until then the last word on requests is right |
| WebhookLog.RepeatAddsNothing | crates/hub/src/webhooks.rs:172-179 | a repeated update changes nothing, whatever came before |
| WebhookLog.ReaderIsUpToDate | crates/hub/src/webhooks.rs:161-205 | over any updates what a reader of the events knows of the run is right, however many updates told nothing |
| WebhookFaults.SavedNumber | crates/hub/src/webhooks.rs:183-205 | the saved number never passes what was told, and falls behind exactly after an interrupted update or the purge |
| WebhookFaults.NumberedIff | crates/hub/src/webhooks.rs:183-205 | the numbers are 1..n exactly when nothing was told after an update that queued something and failed to save, or after the purge |
| WebhookFaults.ForgottenStartsOver | crates/hub/src/db/integrations.rs:274-278 | an ended run changed after its state was purged is told again from 1 |
| WebhookQueue.Outbox.OnRun | crates/hub/src/webhooks.rs:164-210 | the nested loops queue every listening integration's share in order, up to where an insert fails, save the state only after all of it, and answer how many rows were queued |
| WebhookQueue.Outbox.QueueShare | crates/hub/src/webhooks.rs:191-203 | one integration's share, cut where an insert fails |
| WebhookQueue.ForQueue | crates/hub/src/webhooks.rs:186-204 | each integration is queued its share, in order, and nothing else |
| WebhookQueue.BridgeGetsTheLog | crates/hub/src/webhooks.rs:192-195 | what an update queues for a bridge that may see everything is the next of the run's log, cut somewhere exactly when the update is interrupted |
| WebhookRuns.QueueIsTheLog | crates/hub/src/webhooks.rs:164-210 | over any run of updates, interruptions and purges, with any other integrations each time, such a bridge's queue is the run's event log under the same interruptions |
| WebhookRuns.UninterruptedQueue | crates/hub/src/webhooks.rs:164-210 | over any uninterrupted updates it is the log of `WebhookLog.LogIsWellTold` |
| WebhookRuns.UninterruptedShare | crates/hub/src/webhooks.rs:186-204 | over any uninterrupted updates every other integration is queued exactly its share of that log |
| WebhookRuns.OnlyWhatItGets | crates/hub/src/webhooks.rs:192-199 | over any run, interrupted or not, a webhook with picks is queued only what it picked, an integration that may not see the machine or is off gets nothing, and a title only goes where titles are shown |
| WebhookRuns.NothingMissing | crates/hub/src/webhooks.rs:186-204 | and over uninterrupted updates it is queued everything else the log has |
| WebhookRuns.SavedIsNewest | crates/hub/src/webhooks.rs:164-210 | over any run the state compared with is that of the newest update that worked to its end with somebody listening, none after a purge |
| WebhookQueue.OthersGetTheirShare | crates/hub/src/webhooks.rs:192-199 | any other integration is queued a part of that log with the same numbers, in order |
| WebhookRetry.Delivery.Attempted | crates/hub/src/webhooks.rs:307-323 | an attempt that is recorded delivers the row, fails it or sets the next one; one that is not changes nothing |
| WebhookRetry.DeliveredIsLast | crates/hub/src/webhooks.rs:307-312 | no attempt follows one that worked and was recorded, in any history |
| WebhookRetry.EndsIff | crates/hub/src/webhooks.rs:253-261 | a row is delivered exactly when its last attempt worked and was recorded, and given up on exactly when that one failed, was recorded, and was known a day or more after the row was made |
| WebhookRetry.NextIs | crates/hub/src/webhooks.rs:253-261 | until then it is due at once, or after the last recorded failure by the delay for the number of those before it |
| WebhookRetry.DelayIs | crates/hub/src/webhooks.rs:257-260 | ten doublings from 5 s, then an hour, and nothing saturates |
| WebhookRetry.AttemptsTakeTime | crates/hub/src/webhooks.rs:253-261 | the next attempt waits at least for all the delays so far, less what the clock was set back while attempts ran |
| WebhookRetry.AtMost34 | crates/hub/src/webhooks.rs:32-35 | at most 34 attempts are recorded, so only unrecorded ones can exceed 34, as long as the clock is set back by no more than 25 minutes and 15 seconds |
| WebhookRetry.AtMost34Iff | crates/hub/src/webhooks.rs:253-261 | that is exact: 34 is the bound for every history precisely up to that much setting back |
| WebhookRetry.ThirtyFourHappens | crates/hub/src/webhooks.rs:253-261 | 34 attempts do happen |
| Connector.Recovery.Observe | crates/hub/src/cloud_connector.rs:45-64 | a restart is asked for exactly when the last `failures` events are TunnelUnavailable observations |
| Connector.Recovery.RestartDelay | crates/hub/src/cloud_connector.rs:65-71 | the delay is that of the restarts since the connection was last stable, and the next one doubles |
| Connector.FailuresIs | crates/hub/src/cloud_connector.rs:54-63 | the counter is the longest run of TunnelUnavailable observations at the end, which a restart breaks |
| Connector.StableIs | crates/hub/src/cloud_connector.rs:47-53 | stable means one unbroken Connected stretch of `stable_for` from its first probe to its last |
| Connector.RestartsSinceStable | crates/hub/src/cloud_connector.rs:47-53 | the doublings count the restarts since the last stable moment, or since the start |
| Connector.DelayIsCappedIff | crates/hub/src/cloud_connector.rs:65-71 | the delay is `min(initial * 2^k, max)` exactly when there was a restart or the initial backoff is within the maximum |
| Supervisor.Supervise | crates/hub/src/cloud_connector.rs:82-132 | what the loop does at each happening is exactly what must be done then, every act has its reason, and it ends well exactly at a shutdown that left no child, and badly exactly when a spawn, a wait or a kill failed |
| Supervisor.StartsAgain | crates/hub/src/cloud_connector.rs:96-131 | a connector that exited, or was killed because the last checks were all down, is started again when its pause ends, after exactly one pause of the right length, whatever comes meanwhile |
| Supervisor.NeverTwo | crates/hub/src/cloud_connector.rs:74-80 | old and new connectors never overlap |
| Supervisor.KilledForAReason | crates/hub/src/cloud_connector.rs:117-121 | a living connector is only killed at shutdown or after the configured number of failed checks since the last restart |
| HookCommands.RecognisedIff | crates/protocol/src/lib.rs:790-810 | the installed command is recognised exactly when the program's path contains "offdesk", whatever quoting it needs |
| HookCommands.ShellReadsItBack | crates/protocol/src/lib.rs:790-798 | a shell reads any quoted path back as that one word |
| HookCommands.CommandRunsTheProgram | crates/protocol/src/lib.rs:800-803 | so the installed command runs the program, whatever its path, with the hook arguments |
| ClaudeHooks.UpdateSettings | crates/cli/src/agents.rs:301-340 | the loops drop what is recognised, add the eight groups, and put the hooks back in place |
| ClaudeHooks.RetainEvents | crates/cli/src/agents.rs:313-326 | retaining handlers, groups and events leaves exactly the own ones |
| ClaudeHooks.UpdateForgetsInstallIff | crates/cli/src/agents.rs:299-331 | updating after an install, to install again or to uninstall, gives what updating alone gives exactly when the installed program is recognised |
| ClaudeHooks.InstalledOncePerEvent | crates/cli/src/agents.rs:299-331 | after an install each of the eight events has exactly one handler of Offdesk's, the program's, and no other event has any; after an uninstall none has |
| ClaudeHooks.OwnSurvives | crates/cli/src/agents.rs:299-326 | a person's own handlers and every other key survive an update by any program, in order and in their groups; only the handlers of a program that is not recognised come after them |
| ClaudeHooks.HooksStayInPlace | crates/cli/src/agents.rs:313-340 | the hooks stay where they were among the keys, or come last; no empty event, group or key is left |
| ClaudeHooks.InstalledComesLast | crates/cli/src/agents.rs:327-331 | under each of the eight events the installed group comes after what is left of the groups there |
| ClaudeHooks.RefusedIff | crates/cli/src/agents.rs:308-312 | an update is refused exactly when the settings have hooks that are not valid |
| CodexNotify.UpdateConfig | crates/cli/src/agents.rs:375-423 | Offdesk's prefix is taken off the person's program and put in front when installing |
| CodexNotify.RestoredIff | crates/cli/src/agents.rs:395-421 | uninstalling after an install restores the list exactly when the program is recognised and the list was neither empty nor already started with the prefix |
| CodexNotify.UpdateForgetsInstallIff | crates/cli/src/agents.rs:395-421 | a later update gives what it gives without the install exactly when the installed program is recognised |
| CodexNotify.UpdatedIs | crates/cli/src/agents.rs:395-421 | exactly what an update leaves: the program behind the prefix of any recognised install, with the new one in front when installing, and no key for an empty list |
| Versions.Compare | crates/hub/src/versions.rs:172-192 | the loop over the identifiers finds the first difference, then compares their number |
| Versions.OrderIsTotalPreorder | crates/hub/src/versions.rs:172-192 | comparing is reflexive, reverses, and is transitive on everything that can be read |
| Versions.NewerIsStrictOrder | crates/hub/src/versions.rs:142-151 | being newer is a strict order on all strings, and what cannot be read is never newer |
| Versions.NewestIsNewest | crates/hub/src/versions.rs:121-133 | the result is an eligible release that no eligible release is newer than, absent only when there is none or the listing is no list |
| Versions.NewestOf | crates/hub/src/versions.rs:99-119 | the result is an answer no other answer is newer than; an error only when every feed fails, with all their errors |
| Versions.NamedIff | crates/hub/src/versions.rs:121-140 | eligible is exactly a release that is neither a draft nor a pre-release and is tagged `v` and a version |
| SemVer.ReadsWhatItSays | crates/hub/src/versions.rs:158-170 | a well-formed version is read as its numbers and identifiers, without its build metadata, exactly when the three numbers fit in 64 bits |
| SemVer.WrittenIsRead | crates/hub/src/versions.rs:153-170 | three decimal numbers with dots, perhaps a pre-release, perhaps build metadata: read as just that if the numbers fit in 64 bits |
| SemVer.ReadIsWritten | crates/hub/src/versions.rs:153-170 | and nothing else is read |
| SemVer.NewerIsHigherIff | crates/hub/src/versions.rs:142-192 | on well-formed versions whose three numbers fit in 64 bits, newer is the higher precedence of section 11 of Semantic Versioning 2.0.0 exactly unless their pre-releases first differ in a number above 64 bits whose text sorts the other way |
| SemVer.UnreadableIsNeverNewer | crates/hub/src/versions.rs:153-170 | a version whose three numbers do not all fit is neither newer nor older than any |
| SemVer.NewerIsHigher | crates/hub/src/versions.rs:142-151 | on well-formed versions all of whose numbers fit, newer is exactly the higher precedence |
| SemVer.TooBigComparesAsText | crates/hub/src/versions.rs:178-184 | from 21 digits on, 9 followed by zeros counts as newer than the higher 1 followed by one more zero |
| RelayNames.SlugIff | crates/hub/src/cloud.rs:105-114 | a slug is words of small letters and digits with single dashes between them, 3 to 40 characters in all |
| RelayNames.RegionIff | crates/hub/src/cloud.rs:115-126 | a region code is two small letters, or those, a dash and one to sixteen more |
| RelayNames.RelayHostIff | crates/hub/src/cloud.rs:127-135 | exactly the names written from valid parts are accepted, and reading undoes the writing |
| RelayNames.ValidatedRelayIsItsOwn | crates/hub/src/cloud.rs:136-157 | every address of a validated relay reads back as its own slug, with no region, then home, then backup, all different |
| RelayNames.OnlyItsOwnValidates | crates/hub/src/cloud.rs:136-157 | a relay whose addresses read back so is the only kind that validates |
| RelayRegions.ValidateRegions | crates/hub/src/cloud.rs:168-186 | the loop over a growing set accepts exactly 1 to 16 well-formed regions with different codes and a known default |
| RelayRegions.HostsAreTheirRegions | crates/hub/src/cloud.rs:168-186 | a slug in front of the host of a validated region is a relay in that region |
| RelayRegions.FlagsAreNoRegions | crates/hub/src/cloud.rs:115-126 | the flags `auto` and `none` are never region codes |
| RelayRegions.Choose | crates/hub/src/cloud.rs:225-270 | measuring, ranking and choosing give the specified pair or failure |
| RelayRegions.FirstOtherIsFastest | crates/hub/src/cloud.rs:236-243 | the first of the sorted list but one is the fastest but one, and of equals the first listed |
| RelayRegions.ChosenIsValid | crates/hub/src/cloud.rs:252-269 | whatever was measured and asked, the home is known and the backup absent, or known and different |
| RelayRegions.FlagsAreHonoured | crates/hub/src/cloud.rs:244-268 | what is asked for is chosen, a new home keeps the backup in use if it still can, and without a home flag the home in use stays |
| RelayRegions.ChoiceFailsIff | crates/hub/src/cloud.rs:252-261 | for validated regions it fails as unknown exactly when an unknown region is asked for, and as the same one exactly when the backup asked for is the home |
| RelayRegions.AutoTakesTheFastest | crates/hub/src/cloud.rs:225-264 | an automatic choice takes the fastest home, or the default, and unless told otherwise the fastest other region |
| RelayRegions.NewHomeGetsFastestOther | crates/hub/src/cloud.rs:252-264 | a home asked for without a usable pair gets the fastest other region as its backup |
| RelayRegions.ChoosingAgainKeeps | crates/hub/src/cloud.rs:265-268 | choosing again without flags keeps any valid pair for every measurement |
| RelayRegions.ChoiceIsStable | crates/hub/src/cloud.rs:225-270 | what was chosen stays chosen until a flag or the listing changes it |

## Left out

- Integer widths: sequence numbers, epochs, row ids and counters are unbounded; `u64` and `i64` overflow is not modelled except where a saturating operation or a parse limit is written in the code.
- Channels: a viewer's channel is a value inside its viewer (all it was sent, and whether the receiver exists); the receiver's side and memory limits are not modelled.
- Aliasing of channels and the locks around the maps: each call is one atomic step, as the mutex makes it.
- The wall clock: seeds, probe times and row times are any numbers, a delivery's clock may be set back while an attempt runs, and backoff jitter is left out.
- Cryptography and digests: the composer's digest is the message itself; signatures and keys are not modelled.
- JSON and TOML text: settings, hooks and `notify` are values; parsing, layout, backups and the rename that replaces the file are not modelled.
- What a bridge command does: from the lookup that finds no result it counts as carried out, even if its connection goes before it ends; access checks, limits and the audit are not modelled.
- SQLite, HTTP, WebSockets, PTYs and processes: their outcomes are parameters of the steps; the removal of week-old delivered rows from the outbox, which no query for unacknowledged events selects, is not a step.
- Attach channel capacity: a full channel only delays a sender; the 20 s timeout of a call is a step that may happen at any time.
- Resizing and redrawing an attach: commands without bytes.
- Message validation in the composer: its outcome is part of the message; the checks themselves are independent of the receipts.
- A run updated while its owner has no enabled integration: such an update leaves no trace, as `WebhookQueue.Outbox.OnRun` says; the log theorems are about updates that are looked at.
- Machine events, test events and snapshots of a bridge: one row or message each, with no state of their own.
- `keep_connected` and `sync`: connecting, dropping and overlapping connections are steps; the waits between them are not modelled.
- The cache of the newest release, the measuring of regions, and the command line around them.
- Screencast capture, input and dialogs on the node: only the gate for Start and Stop is modelled.
