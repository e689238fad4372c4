# Verified core of the DAAO platform

DAAO lets a cockpit (Nexus) run terminal sessions and AI agents on remote machines (satellites). This
project models the parts of it where several goroutines, database statements or file operations
interleave, and proves what every interleaving keeps. Each Dafny module follows one component:

| module | component |
|---|---|
| `StreamWriter` | the daemon's three outbound queues and the goroutine that drains them into the gRPC stream |
| `Reconciliation` | the session list a satellite gets when it connects, against concurrent creates, kills and state updates |
| `AgentEvents` | per-connection numbering of agent events and their attribution to runs |
| `RunEventHub` | the publish/subscribe hub for live agent events |
| `BatchWriter` | the buffered event writer, down to the backing arrays of its slices |
| `RunStream`, `ReplayLive`, `ReplayOrder`, `ReplayEnding`, `ReplayProgress` | what a viewer of a run sees: stored history, then the live channel; in which order, when it ends, and that nothing gets stuck |
| `RunStatus` | the two writers that finish an agent run |
| `RingBuffer`, `LocalAttach` | the scrollback ring and a local terminal attaching to a live session |
| `RateLimit` | the token buckets of satellites and users |
| `Utf8`, `Json`, `JsonValues`, `Cast`, `Recording` | asciicast recordings, byte by byte, from writer to player |
| `RecordingPool`, `ActiveRecordings` | starting, stopping and shutting down recordings while output arrives |
| `LineDiff` | the line diff between versions of a context file |
| `Paging` | cursor paging of sessions and agents |
| `ContextVersions` | versions and history of context files |
| `BinarySwap` | self-update and rollback of the daemon binary by renames |
| `Dispatch` | filtering, scoring and choosing a satellite |

Concurrent components are state machines. A step is one critical section, channel operation, database
statement or file operation; a step that the code could not take in a state changes nothing, and a run is
any sequence of steps. Results about runs are proved by induction over all of them. Where the source keeps
mutable state, a class with the same operations is proved to follow the machine or a specification
function. Clocks, file system outcomes, database answers, socket errors and the choice a `select` makes
are inputs. `hide` statements only keep definitions out of proofs that do not need them.

## Where the code differs from what it says

The models follow the code. These promises do not hold of it; lemmas show the failing runs and, where
there is a condition, say exactly when the promise is kept.

- The writer's comments promise round-robin between agent events and bulk output; `select` promises
  nothing of the kind, and an agent event can wait behind any number of bulk messages
  (`StreamWriter.AgentEventsCanStarve`). How many is exactly what is in hand, pending or accepted meanwhile
  (`StreamWriter.OvertakingIff`).
- The satellite's stream is registered before the active sessions are read, so a session started in
  between is pruned although its row is active (`Reconciliation.CreateInWindowIsPruned`,
  `Reconciliation.WindowSessionIsPruned`); the gateway's read-then-write can revive a terminated row
  (`Reconciliation.TerminatedRowRevives`); a kill dispatched before its start leaves the session running
  (`Reconciliation.KillOvertakesStart`), and with a kill that is neither early nor lost that never happens
  (`Reconciliation.KillStopsItsSession`).
- A flush keeps the buffer's backing array for the next append, so an append that arrives before the batch
  is queued overwrites its first event (`BatchWriter.AppendOvertakesFlush`, `BatchWriter.ExactlyOnceIff`).
  The replay then misses an event (`ReplayLive.OvertakenHistory`), and it is right exactly when no batch
  stored before the read was overtaken (`ReplayLive.HistoryRightIff`).
- A viewer reads the run's status before it subscribes; if the whole ending of the run falls in between, its
  stream stays open unless the run ends once more (`ReplayEnding.StreamCanStayOpen`, `ReplayEnding.StaysOpenIff`).
- The replay is ordered by sequence numbers that start again on every connection, so it can come out of
  publication order (`ReplayOrder.ReconnectReplaysOutOfOrder`); it never does exactly when the numbers grow with
  publication among the stored events (`ReplayOrder.ReplayOrderIff`).
- A finished run is overwritten as failed by the session's TERMINATED update on a connection that knows the
  run (`RunStatus.TerminatedOverwritesIff`, `RunStatus.CompletedRunBecomesFailed`).
- The ring buffer is documented to evict its oldest bytes; once full it moves its head back onto the byte
  just written (`RingBuffer.SnapshotTurns`) and keeps the oldest bytes instead
  (`RingBuffer.OverflowKeepsTheOldest`); it holds the most recent bytes for every text of a length exactly when
  the text just fills it (`RingBuffer.AlwaysKeepsLatestIff`).
- A recording replaces every byte that is not valid UTF-8 in its own chunk, so a character split between
  two reads of the terminal is lost although the output is valid (`Recording.SplitCharacterIsLost`).
- The agent list stops after 2 * limit - 1 agents (`Paging.FollowAgents`).
- Two overlapping updates of a context file record one version twice and another never
  (`ContextVersions.InterleavedUpdatesLoseAVersion`, `ContextVersions.DistinctIffNoOverlap`,
  `ContextVersions.RecordedIffCopied`).

## Model

| member | source | states |
|---|---|---|
| `StreamWriter.QueueConservation` | cmd/daao/daemon.go:264-343 | in every run, each queue's accepted messages are, in FIFO order, those departed, the one in hand and those pending: nothing is duplicated, reordered or silently dropped |
| `StreamWriter.OneLossPerConnection` | cmd/daao/daemon.go:784-806 | over all three queues a connection loses at most one message, and none while it lives |
| `StreamWriter.LossEndsItsConnection` | cmd/daao/daemon.go:309-343 | per connection a queue's departures are deliveries followed by at most one loss |
| `StreamWriter.PriorityBound` | cmd/daao/daemon.go:309-343 | between the acceptance of a priority message and its departure at most one agent or bulk message leaves, whatever producers, stream and reconnects do |
| `StreamWriter.AgentEventsCanStarve` | cmd/daao/daemon.go:306-343 | for every n there is a run in which one agent event waits while n bulk messages are delivered |
| `StreamWriter.BulkDepartures` | cmd/daao/daemon.go:309-343 | in every continuation of every run the bulk messages that leave are those in hand or pending at its start and those accepted meanwhile, less what is still there |
| `StreamWriter.OvertakingIff` | cmd/daao/daemon.go:306-343 | with nothing further accepted, at most n bulk messages leave while the waiting agent events stay, in every continuation, exactly when at most n are in hand or pending or the writer is gone; n = 1 is the promised alternation |
| `StreamWriter.EverythingCanBeDelivered` | cmd/daao/daemon.go:309-343 | from any point of any run, unless the writer is gone for good, some continuation in which nothing is accepted delivers all that waits in a lane, in order |
| `StreamWriter.EnqueuedIff` | cmd/daao/daemon.go:264-304 | a message joins its queue exactly when fewer than 64, 512 or 256 wait there and the select did not take a context that is done; nothing else changes |
| `StreamWriter.Daemon.constructor` | cmd/daao/daemon.go:170-176 | a new daemon has three empty queues and is the start of a run |
| `StreamWriter.Daemon.Offer` | cmd/daao/daemon.go:264-304 | the non-blocking enqueue answers true exactly when the queue (64, 512 or 256 slots) had room and the message was taken, and a refusal changes no queue |
| `StreamWriter.Daemon.Receive` | cmd/daao/daemon.go:311-336 | taking from a ready queue hands out its oldest message and is a step of the machine |
| `StreamWriter.Daemon.Send` | cmd/daao/daemon.go:338-342 | a send puts exactly the message in hand on the wire, or ends the writer |
| `StreamWriter.Daemon.NextMessage` | cmd/daao/daemon.go:311-336 | if a control message waits at the poll, its oldest one is in hand; otherwise the picked case decides: blocked exactly if it is not ready, returned exactly if done was picked and is ready, else the oldest message of the picked lane is in hand |
| `StreamWriter.Daemon.StreamWriter` | cmd/daao/daemon.go:309-343 | the writer loop makes exactly the rounds it is given, up to the first that blocks or ends it; every step is one of the machine, and the wire grows by exactly what it sent |
| `Reconciliation.InvRun` | internal/grpc/gateway.go:333-398 | the invariant tying rows, queued commands, reconciliation snapshots and satellite state holds in every run |
| `Reconciliation.NoActiveSessionPruned` | cmd/daao/daemon.go:1139-1171 | a session about to be pruned whose row is active was started between the query and the reconciliation message, or had its terminated row revived; with neither, no active session is pruned |
| `Reconciliation.WindowSessionIsPruned` | internal/grpc/gateway.go:333-398 | the converse: every session started in that window and running when the message is handled becomes an orphan |
| `Reconciliation.CreateInWindowIsPruned` | internal/api/handlers.go:511-541 | a concrete run in which a session created in the window is started and then removed although its row is active |
| `Reconciliation.KilledSessionsRemoved` | internal/api/handlers.go:875-893 | once the message is handled, every session whose row was terminated at the query is gone or had exited, even if its kill command was lost |
| `Reconciliation.UpdatingIffChecked` | internal/grpc/gateway.go:443-451 | a state change waits to be stored exactly when the gateway checked it against the row and has not stored it since |
| `Reconciliation.TerminatedRowRevives` | internal/grpc/gateway.go:443-451 | a terminated row becomes active again exactly when the gateway stores a transition that it checked while the row was not terminated and has not stored since |
| `Reconciliation.KillIsOverwritten` | internal/session/store.go:264-333 | a run in which a kill commits between the gateway's read and its write and is undone |
| `Reconciliation.KillStopsItsSession` | internal/api/handlers.go:875-893 | in every run, if a row is terminated, nothing about the session is under way and the satellite still has it, then its kill was dispatched before its start, or was refused or dropped with the connection, or there was none, or the row was revived |
| `Reconciliation.KillOvertakesStart` | internal/stream/registry.go:88-103 | from any point of any run at which kill and start both wait to be dispatched, the kill can go first, and then the satellite is left running the session; the run starts with a disconnect, and no kills are lost but those in the channel then |
| `Reconciliation.KillBeforeStart` | internal/api/handlers.go:511-541 | such a point is reached from any run with any new session |
| `Reconciliation.StartIsSentIff` | internal/api/handlers.go:511-541 | a start is sent exactly when the satellite's stream is found, in any phase of its connection, and fewer than 100 commands wait in its channel |
| `Reconciliation.KillIsSentIff` | internal/api/handlers.go:875-893 | the same for a kill; one that is not sent is lost |
| `Reconciliation.KillMarks` | internal/api/handlers.go:875-893 | a kill request terminates exactly the rows that are not terminated yet and leaves a kill to dispatch |
| `Reconciliation.CheckedStateIsStored` | internal/session/store.go:264-333 | a reported state is stored exactly when its transition was checked and not stored since, whatever the row holds by then |
| `Reconciliation.PipeCanBeHandled` | internal/stream/registry.go:88-103 | from any point of any run everything on its way can reach the satellite, and the last command decides |
| `Reconciliation.SentStartRuns` | internal/api/handlers.go:511-541 | from any point at which a start is sent, the satellite can come to run the session |
| `Reconciliation.SentKillStops` | internal/api/handlers.go:875-893 | from any point at which a kill is sent, the satellite can come to have dropped the session |
| `Reconciliation.OrphansAtReceipt` | cmd/daao/daemon.go:1139-1158 | when the message is handled, the orphans are exactly the unlisted local sessions that have not exited, and those that have are set apart |
| `Reconciliation.QueriesReadTheTable` | internal/grpc/gateway.go:333-398 | the list a satellite is sent is, of the rows of one moment of its connection, those not terminated then |
| `Reconciliation.ReconnectConverges` | internal/grpc/gateway.go:333-398 | from any point of any run, a new connection left alone leaves the satellite with exactly the sessions it had whose rows are not terminated or that had exited |
| `Reconciliation.ExitedSurvivesReconnect` | cmd/daao/daemon.go:1139-1171 | a session whose process has exited keeps its entry over a reconnect |
| `Reconciliation.ExcusesAre` | internal/stream/registry.go:88-103 | told by the events: a kill is lost exactly if no stream was found, the satellite was offline, its channel full, or the connection went; early exactly if its start still waited; a row ended silently or revived exactly by a stored report |
| `Reconciliation.WindowIs` | internal/grpc/gateway.go:333-398 | the window of a query is exactly the sessions it had not seen whose start was sent before its message |
| `Reconciliation.Satellite.CollectOrphans` | cmd/daao/daemon.go:1139-1158 | the loop collects exactly the local, not terminated sessions missing from the list |
| `Reconciliation.Satellite.HandleSessionReconciliation` | cmd/daao/daemon.go:1139-1171 | undisturbed, the handler removes exactly the orphans and keeps every other session |
| `AgentEvents.Connection.constructor` | internal/grpc/gateway.go:714-724 | a connection starts with no counters and no mappings |
| `AgentEvents.Connection.HandleAgentEvent` | internal/grpc/gateway.go:714-758 | one event moves its session's counter and mapping to what all messages so far determine, and is published with that number and run or skipped |
| `AgentEvents.Connection.Receive` | internal/grpc/gateway.go:714-758 | the loop publishes exactly the events the whole message sequence determines |
| `AgentEvents.EventsAreAttributed` | internal/grpc/gateway.go:721-758 | a session's published events all belong to the run first found for it and are its last messages in order, numbered without gaps up to the number of its messages |
| `AgentEvents.OnlyEarlyMessagesAreSkipped` | internal/grpc/gateway.go:724-747 | once a session's run is known it never changes on the connection and no later message is skipped |
| `AgentEvents.EventsFromFirstFound` | internal/grpc/gateway.go:721-758 | from the first message for which the database named a run, each message of the session is published for that run under its number; the messages before it are not |
| `AgentEvents.RunIsFirstFound` | internal/grpc/gateway.go:724-747 | told by the messages alone: a session's events belong to run r exactly when r is the first run found for it, and it has none exactly when none was found or the session has no name |
| `RunEventHub.HubNeverPanics` | internal/agentstream/hub.go:43-104 | in every run no step sends on or closes a closed channel, and no closed subscriber is in the map |
| `RunEventHub.HubRefinesLanes` | internal/agentstream/hub.go:43-104 | seen from one subscriber the hub behaves like a single bounded channel that knows nothing of the others |
| `RunEventHub.LaneFollowsCalls` | internal/agentstream/hub.go:43-77 | a channel exists and is open exactly as the calls made for it say |
| `RunEventHub.StreamIsWhatWasHeard` | internal/agentstream/hub.go:79-94 | a subscriber gets, in order, the events published for its run while subscribed, minus exactly those published while its 128 slots were full |
| `RunEventHub.PublishReachesIff` | internal/agentstream/hub.go:79-94 | an event is put behind those that wait exactly for a subscriber that the calls say is subscribed to the run and for which fewer than 128 wait |
| `RunEventHub.ReceivingDrains` | internal/agentstream/hub.go:43-55 | a viewer that receives gets what waits for it, oldest first, and nobody else is affected |
| `RunEventHub.UnsubscribeHarmlessIff` | internal/agentstream/hub.go:58-76 | in every run an unsubscribe changes something exactly when its subscriber is still in the map |
| `RunEventHub.ClosedStaysOut` | internal/agentstream/hub.go:43-104 | a closed subscriber stays closed and never becomes a member of any run again |
| `RunEventHub.UnsubscribeAfterCloseIsHarmless` | internal/agentstream/hub.go:58-104 | a viewer's deferred unsubscribe changes nothing however long after the hub closed its run it comes, and whoever subscribed in between |
| `RunEventHub.Hub.constructor` | internal/agentstream/hub.go:35-40 | a new hub is the machine's initial state |
| `RunEventHub.Hub.SubscribeTo` | internal/agentstream/hub.go:43-55 | subscribing is the machine's step and keeps the invariant |
| `RunEventHub.Hub.UnsubscribeFrom` | internal/agentstream/hub.go:58-76 | unsubscribing is the machine's step, closing the channel only if still open |
| `RunEventHub.Hub.SendToAll` | internal/agentstream/hub.go:79-94 | the loop offers the event once to every member, whatever the order |
| `RunEventHub.Hub.PublishTo` | internal/agentstream/hub.go:79-94 | publishing is the machine's step and never sends on a closed channel |
| `RunEventHub.Hub.ShutEach` | internal/agentstream/hub.go:96-104 | the loop closes every member's channel once |
| `RunEventHub.Hub.CloseRun` | internal/agentstream/hub.go:96-104 | closing a run is the machine's step |
| `BatchWriter.RunShaped` | internal/database/batch_writer.go:44-161 | buffers, batches and backing arrays keep their shape in every run |
| `BatchWriter.TakesPartitionAppends` | internal/database/batch_writer.go:44-126 | for each run the appended events are, in order, those taken by the batches followed by those still buffered |
| `BatchWriter.RunFlags` | internal/database/batch_writer.go:112-161 | in every interleaving a batch's slots hold what was taken except where an append reused the array |
| `BatchWriter.BatchFaithfulIffNotClobbered` | internal/database/batch_writer.go:112-161 | a fully queued batch equals what was taken exactly when no append wrote into its array first; a batch taken by Close always does |
| `BatchWriter.RunGenuine` | internal/database/batch_writer.go:44-161 | whatever is buffered, taken or queued is an event that was appended |
| `BatchWriter.ClobberedLosesAndRepeats` | internal/database/batch_writer.go:112-161 | a batch that was overwritten loses an event it took and hands over one it did not take |
| `BatchWriter.ExactlyOnceIff` | internal/database/batch_writer.go:44-161 | every appended event is handed over exactly once, in the order the batches were taken, exactly when no batch of the run was overwritten |
| `BatchWriter.AppendOvertakesFlush` | internal/database/batch_writer.go:103-126 | from any reachable state with buffered events, flush, append, queue hands over the new event in place of the first one |
| `BatchWriter.AppendedAre` | internal/database/batch_writer.go:44-66 | the appended events are those of the append calls, in order |
| `BatchWriter.UndisturbedHandsOver` | internal/database/batch_writer.go:86-126 | a flush or close that nothing disturbs hands over exactly what was buffered, in order, and leaves nothing; without buffered events it makes no batch |
| `BatchWriter.BatchEventWriter.constructor` | internal/database/batch_writer.go:36-41 | a new writer has no buffers |
| `BatchWriter.BatchEventWriter.AppendEvent` | internal/database/batch_writer.go:44-66 | the run's buffer grows by the event, in the same array exactly when it has room, and other buffers are untouched |
| `BatchWriter.BatchEventWriter.FlushInternal` | internal/database/batch_writer.go:112-126 | the buffered events are handed out and the buffer restarts empty on the same array |
| `BatchWriter.BatchEventWriter.TakeEvents` | internal/database/batch_writer.go:86-101 | the buffer leaves the map, so no remaining buffer shares its array |
| `BatchWriter.BatchEventWriter.ExecuteBatch` | internal/database/batch_writer.go:138-161 | what is queued is what the array holds when the loop reads it |
| `BatchWriter.BatchEventWriter.FlushRacedByAppend` | internal/database/batch_writer.go:103-126 | on the real arrays, an append between flush and queueing replaces the first queued event |
| `RunStream.Replay` | internal/api/agent_run_stream.go:225-246 | the replay loop writes each stored event once, in order, between the connected and live-start markers; a failed read replays nothing |
| `RunStream.FollowLive` | internal/api/agent_run_stream.go:254-278 | the select loop shows exactly the events received before the channel closes or the viewer leaves |
| `RunStream.ServeStream` | internal/api/agent_run_stream.go:221-278 | a viewer sees the whole history and then the live events; a finished run gets its history only |
| `RunStream.FramesShow` | internal/api/agent_run_stream.go:221-278 | the events shown by the frames are the replayed ones followed by those received |
| `RunStream.LiveUntilClosed` | internal/api/agent_run_stream.go:254-278 | the live part ends at the closed channel or the cancelled request and nowhere else, with one frame for each event and heartbeat before |
| `ReplayLive.WriterRuns` | internal/database/batch_writer.go:44-161 | the batch writer inside the machine makes a run of the batch writer model, backing arrays included |
| `ReplayProgress.LiveIsTheHubsLane` | internal/agentstream/hub.go:43-104 | the viewer's channel inside the machine is its channel in the hub model |
| `ReplayProgress.TakesReceive` | internal/api/agent_run_stream.go:254-278 | each event a viewer takes is one receive from its channel |
| `ReplayProgress.ChannelReachesTheViewer` | internal/api/agent_run_stream.go:254-278 | from any point of any run at which a viewer follows the channel it can take all the channel holds, and then the frames show each event as often as the history does and once more exactly if published after Subscribe, before the close, with a slot free; and nothing else |
| `ReplayProgress.FailedReadGoesLive` | internal/api/agent_run_stream.go:225-246 | a failed read replays nothing, and the viewer goes on with the channel |
| `ReplayProgress.BufferIsTaken` | internal/database/batch_writer.go:86-126 | a flush, or the close at agent_end, takes the whole buffer into a batch |
| `ReplayProgress.EverythingCanBeStored` | internal/grpc/gateway.go:759-789 | from any point of any run, storage can go on so that every published event is written by its one insert, except those whose insert had failed |
| `ReplayLive.RouteConservation` | internal/grpc/gateway.go:759-789 | in every interleaving the published copies are, each exactly once, those in the receive loop, in the buffer, in a batch not yet sent, with a goroutine of their own, or meant by an insert that was made |
| `ReplayLive.EventFate` | internal/grpc/gateway.go:759-789 | every published event is in exactly one place on its way, or its one insert failed, or succeeded before a given time, or after it |
| `ReplayLive.FaithfulInsert` | internal/database/batch_writer.go:138-161 | an insert of a batch that no append overtook writes exactly what it was meant to write |
| `ReplayLive.OvertakenInsert` | internal/database/batch_writer.go:103-161 | an insert of an overtaken batch leaves out an event it was meant to write, and writes one whose one place is elsewhere: with another insert or still on its way |
| `ReplayLive.MeantOnce` | internal/grpc/gateway.go:759-789 | no event is meant by two inserts |
| `ReplayLive.RunInv` | internal/api/agent_run_stream.go:221-278 | in every run the live channel, the history and the ending of the stream are what the times of publication, storage, subscription and reading say |
| `ReplayLive.HistoryCount` | internal/database/agent_run_events.go:42-62 | if no batch stored before the read was overtaken, the history holds an event once when its insert succeeded before the read and otherwise not at all |
| `ReplayLive.HistoryRightIff` | internal/database/agent_run_events.go:42-62 | the history holds every event once if stored before the read and otherwise not at all, exactly when no batch stored before the read was overtaken; and an event stored in time is missing exactly when one was |
| `ReplayLive.Coverage` | internal/api/agent_run_stream.go:221-278 | if no batch stored before the read was overtaken, the frames a viewer is sent show an event once for being stored before the read and once for being received live, and not otherwise; it enters the channel exactly when published after Subscribe, before the close and with a slot free; one not stored in time is in exactly one place on its way, or failed, or was stored after the read |
| `ReplayLive.CoverageIff` | internal/api/agent_run_stream.go:221-278 | the frames show every event as often as that exactly when no batch stored before the read was overtaken |
| `ReplayLive.LostFromHistory` | internal/database/batch_writer.go:103-161 | whatever cell of a batch stored before the read was overwritten, some event stored in time is missing from the history |
| `ReplayLive.OvertakenHistory` | internal/database/batch_writer.go:103-161 | with an overtaken batch stored before the read some event stored in time is missing; the event the batch left out is, unless another insert in time wrote it; the one it wrote instead is there, and twice if another insert in time wrote it as well |
| `ReplayLive.BatchIsOvertaken` | internal/grpc/gateway.go:759-789 | from any point of any run with events buffered, an event that arrives between a flush and the loop that fills its batch overtakes it |
| `ReplayLive.HistoryGenuine` | internal/database/agent_run_events.go:42-62 | every copy in the history carries the number and type its event was published with, whatever overtook what |
| `ReplayLive.CopiesAgree` | internal/api/agent_run_stream.go:233-271 | a replayed and a live copy of one event are equal, sequence number included |
| `ReplayOrder.ReplayOrder` | internal/database/agent_run_events.go:42-62 | the replay is in publication order if sequence numbers grow with publication among the stored events, and is not if they fall between two of them |
| `ReplayOrder.AnswersOrderedIff` | internal/database/agent_run_events.go:42-62 | every answer ordered by sequence number is in publication order exactly when the numbers grow strictly with publication among the rows; equal numbers spoil it |
| `ReplayOrder.ReplayOrderIff` | internal/api/agent_run_stream.go:225-246 | at any point of any run at which a viewer may read, every replay it may get is in publication order exactly when the numbers grow with publication among the rows stored by then |
| `ReplayOrder.ReconnectReplaysOutOfOrder` | internal/grpc/gateway.go:721-722 | from any run with a stored event and a viewer that has not read, a reconnect and one more stored event lead to a replay out of publication order |
| `ReplayOrder.OneConnectionReplaysInOrder` | internal/database/agent_run_events.go:42-62 | events of one connection are replayed in publication order |
| `ReplayOrder.SequenceIncreasesPerConnection` | internal/grpc/gateway.go:721-722 | within a connection sequence numbers grow in publication order |
| `ReplayOrder.ReconnectRestartsSequence` | internal/grpc/gateway.go:721-722 | after a reconnect numbering starts again at 1, so numbers do not identify events across connections |
| `ReplayOrder.EventsArePublications` | internal/grpc/gateway.go:714-758 | the published events are the steps that publish, in order, each numbered by the messages handled on its connection, and marked as missed exactly if the viewer was subscribed with 128 events waiting |
| `ReplayOrder.CounterCounts` | internal/grpc/gateway.go:721-722 | the sequence counter is the number of messages handled since the last reconnect, published or not |
| `ReplayEnding.StreamEndsIff` | internal/api/agent_run_stream.go:203-258 | a viewer's stream has ended of itself exactly when the run's ending was stored before the status was read or the hub has closed the run since Subscribe |
| `ReplayEnding.EndedWhenStored` | internal/grpc/gateway.go:792-826 | the run's status is terminal from the first ending on that was stored |
| `ReplayEnding.StaysOpenIff` | internal/api/agent_run_stream.go:203-258 | a subscribed viewer's stream stays open in every continuation without another ending of the run exactly when it has not ended and no close of the hub is due |
| `ReplayEnding.AnotherEndingEnds` | internal/grpc/gateway.go:501-535 | another ending of the run with its close does end it |
| `ReplayEnding.StreamCanStayOpen` | internal/grpc/gateway.go:792-826 | after any run nobody watched, an ending between status read and Subscribe leaves a stream open that nothing short of another ending of the run closes |
| `RunStatus.AgentRunStore.UpdateAgentRun` | internal/database/agent_runs.go:300-411 | each of the eight columns is replaced if given and kept otherwise, whatever the status was; no columns, no change |
| `RunStatus.LastWriterWins` | internal/grpc/gateway.go:792-826 | in every run the status is the last one written, never `running` again |
| `RunStatus.CommitmentsAreFound` | internal/grpc/gateway.go:501-535 | the number of status writes done or under way is the number of endings that found the run |
| `RunStatus.WrittenOnceIff` | internal/grpc/gateway.go:501-535 | with no write under way, the status was written at most once exactly when at most one ending found the run |
| `RunStatus.AbsorbingIffGuarded` | internal/database/agent_runs.go:297-411 | at most one status write is done or under way exactly when every ending found the run running with no writer outstanding, or finished on a connection without the mapping |
| `RunStatus.TerminalStatusIsFinalIff` | internal/grpc/gateway.go:501-535 | with no write under way, the status left `running` at most once exactly in those runs |
| `RunStatus.TerminatedOverwritesIff` | internal/grpc/gateway.go:501-535 | TERMINATED changes a finished run exactly when the connection has the run mapped, and then makes it failed |
| `RunStatus.CompletedRunBecomesFailed` | internal/grpc/gateway.go:792-826 | from any quiet point of any run, agent_end then TERMINATED turns a completed run into a failed one that keeps its result and token count |
| `RunStatus.AgentEndStores` | internal/grpc/gateway.go:792-826 | from any point of any run agent_end stores failed exactly for a non-empty error and else completed, the clock, a non-empty result and a positive token count, and no other column; a handler that does not find the run changes nothing |
| `RunStatus.TerminatedStores` | internal/grpc/gateway.go:501-535 | TERMINATED stores failed, the clock and its message, or the fixed text for none |
| `RunStatus.MappedIff` | internal/grpc/gateway.go:724-747 | a connection knows the run exactly when one of its events came while the run was running |
| `RingBuffer.SnapshotIsEverything` | pkg/buffer/ring.go:254-279 | up to the capacity the snapshot is exactly the bytes written |
| `RingBuffer.HeadNeverAdvances` | pkg/buffer/ring.go:39-115 | whatever it holds, a full buffer never moves its head forward: it goes back from the written cell over the bytes at the end that continue a character, at most 31 |
| `RingBuffer.OverflowTurns` | pkg/buffer/ring.go:39-115 | whatever a full buffer holds, a further byte takes the place of the oldest one and the snapshot is turned back over the bytes at its end that continue a character |
| `RingBuffer.SnapshotTurns` | pkg/buffer/ring.go:39-153 | for every text longer than the capacity the snapshot is the first capacity-long stretch turned once for each further byte |
| `RingBuffer.ShortRingKeepsLatest` | pkg/buffer/ring.go:71-115 | up to 32 cells, a buffer holds the most recent bytes while only the first byte and the newest begin a character |
| `RingBuffer.TextEndsInside` | pkg/buffer/ring.go:117-153 | five or more bytes of UTF-8 text always end within three bytes of a boundary, as the results below require |
| `RingBuffer.OverflowedRing` | pkg/buffer/ring.go:39-115 | on overflow the head moves back over the unfinished bytes at the end, at most 31 at a time, and then every further byte lands in one and the same cell |
| `RingBuffer.OverflowKeepsTheOldest` | pkg/buffer/ring.go:39-153 | after an overflow of any length the snapshot is the first capacity-long stretch turned to where the head stopped; of the overflow only the bytes written while the head moved and the very last one are there, each in a known cell |
| `RingBuffer.KeepsLatestIff` | pkg/buffer/ring.go:39-153 | for any overflow the snapshot is the most recent bytes exactly when each of them equals the byte that stayed in its place |
| `RingBuffer.AlwaysKeepsLatestIff` | pkg/buffer/ring.go:39-153 | all texts of a given length leave the most recent bytes exactly when that length is the capacity, or the capacity is 1 |
| `RingBuffer.Buffer.constructor` | pkg/buffer/ring.go:25-33 | a new buffer is empty, with the default capacity for a non-positive one |
| `RingBuffer.Buffer.IsAnsiBoundary` | pkg/buffer/ring.go:117-153 | every byte is a boundary except a UTF-8 continuation byte that is not the one-byte CSI |
| `RingBuffer.Buffer.FindEvictPosition` | pkg/buffer/ring.go:71-115 | the backward scan returns the position the specification scan finds |
| `RingBuffer.Buffer.Write` | pkg/buffer/ring.go:39-63 | the in-place loop has the effect of writing the bytes one after another |
| `RingBuffer.Buffer.TakeSnapshot` | pkg/buffer/ring.go:254-279 | the snapshot unrolls the array oldest byte first |
| `LocalAttach.RunInv` | cmd/daao/control.go:213-244 | in every interleaving each client's output is its scrollback copy followed by the chunks fanned out since it registered |
| `LocalAttach.AttachedClientSees` | cmd/daao/control.go:213-244 | without overflow a client sees the first chunks and then a later stretch, in order, starting at most one chunk early |
| `LocalAttach.GapOrDuplicate` | cmd/daao/daemon.go:1408-1423 | a chunk is missing exactly when it was written after the copy and fanned out before the registration; at most one comes twice; never both |
| `LocalAttach.ClientsAreDated` | cmd/daao/control.go:213-244 | the copy, registration and leaving of a client are counted at the moments of its own calls |
| `LocalAttach.UndisturbedAttachIsSeamless` | cmd/daao/control.go:213-244 | a client that attaches between two chunks is sent the scrollback and then every further chunk once, in order |
| `LocalAttach.DetachedHearsNothing` | cmd/daao/daemon.go:118-127 | a client that has left is sent nothing more |
| `LocalAttach.Session.FanOut` | cmd/daao/daemon.go:1417-1423 | the forwarder's loop delivers the chunk once to each registered client and to no other |
| `LocalAttach.Session.AddLocalClient` | cmd/daao/daemon.go:111-115 | a new client joins behind the others, the list stays free of repetitions, and removing the client gives the old list back |
| `LocalAttach.Session.RemoveLocalClient` | cmd/daao/daemon.go:118-127 | the first matching entry is removed and the order of the others kept |
| `RateLimit.RateBound` | internal/auth/ratelimit.go:31-76 | after any history, any calls in a window of d nanoseconds get at most max * (whole seconds of d + 2) - 1 approvals for one identifier |
| `RateLimit.RateBoundIsTight` | internal/auth/ratelimit.go:31-76 | for every k the bound is reached by a schedule over k seconds and one nanosecond |
| `RateLimit.RatesWrittenOut` | internal/auth/ratelimit.go:31-76 | in any window a satellite gets at most 100 * whole seconds + 199 approvals and a user at most 50 * whole seconds + 99, and both are reached |
| `RateLimit.ApprovedIff` | internal/auth/ratelimit.go:31-53 | a call is approved exactly if it is the first, comes a second or more after the refill, or finds a token; and what the bucket is then |
| `RateLimit.ApprovalsWithinPotential` | internal/auth/ratelimit.go:31-53 | approvals never exceed the tokens left plus one full bucket per whole second since the refill |
| `RateLimit.NeverStarved` | internal/auth/ratelimit.go:41-48 | a first call, or one at least a second after the last refill, is approved |
| `RateLimit.OthersIrrelevant` | internal/auth/ratelimit.go:31-76 | removing all calls of other identifiers changes neither the bucket nor the number of approvals |
| `RateLimit.RateLimiter.constructor` | internal/auth/ratelimit.go:23-28 | a new limiter has no buckets |
| `RateLimit.RateLimiter.AllowSatellite` | internal/auth/ratelimit.go:31-53 | the call admits or refuses as the bucket function says, with 100 tokens, and touches no other bucket |
| `RateLimit.RateLimiter.AllowUser` | internal/auth/ratelimit.go:55-76 | the same for users, with 50 tokens |
| `Utf8.SanitizeIdentityIff` | internal/recording/recorder.go:104 | replacing ill-formed bytes changes a string exactly when it is not valid UTF-8 |
| `Utf8.ValidIff` | internal/recording/recorder.go:104 | a string is valid exactly if it encodes Unicode scalar values: no surrogates, nothing overlong, nothing above U+10FFFF |
| `Json.QuoteRoundTrip` | internal/recording/recorder.go:104 | reading an encoded string gives the string with ill-formed bytes replaced and stops exactly at its closing quote |
| `Json.EscapeOneLine` | internal/recording/recorder.go:104-105 | encoded text never contains a newline or carriage return |
| `Json.EscapeIsSafe` | internal/recording/recorder.go:104 | encoded text has no control characters, angle brackets or ampersands |
| `JsonValues.ArrayRoundTrip` | internal/recording/player.go:62-67 | every written array of numbers and texts reads back element by element |
| `JsonValues.ObjectRoundTrip` | internal/recording/player.go:53-57 | every written object reads back member by member |
| `JsonValues.NestedIsReadIff` | internal/recording/player.go:62-67 | arrays inside each other are read exactly up to 10000 of them |
| `Cast.HeaderRoundTrip` | internal/recording/recorder.go:56-71 | every header reads back with all its numbers, and its title with ill-formed bytes replaced |
| `Cast.EventRoundTrip` | internal/recording/recorder.go:100-107 | every event line reads back as one event of type "o" with the time in microseconds and the data with ill-formed bytes replaced |
| `Cast.ArrayIsEventIff` | internal/recording/player.go:62-92 | a line that holds an array of numbers and texts is an event exactly if it has at least three elements, a number within a double and two texts first |
| `Cast.MicrosNearest` | internal/recording/recorder.go:100-105 | the written time is the nearest microsecond |
| `Cast.DoubleLimit` | internal/recording/player.go:75-77 | numbers are refused from half way beyond the largest finite double on |
| `Recording.Parse` | internal/recording/player.go:36-97 | the scanning loop computes the meaning of any file: header, events of the well-formed lines in order, failure on a bad header or an over-long line |
| `Recording.RecordingRoundTrip` | internal/recording/player.go:36-97 | for every header and every list of chunks, playing the written file gives that header and one event per chunk in order, and fails exactly when some line reaches the scanner's limit |
| `Recording.PlaybackFaithfulIff` | internal/recording/recorder.go:88-113 | a recording plays exactly when its lines fit, and then its output equals the recorded output exactly when each single chunk is valid UTF-8 |
| `Recording.SplitCharacterIsLost` | internal/recording/recorder.go:88-113 | for every character split between two chunks the output is valid UTF-8 and its playback differs from it |
| `Recording.OffsetsDoNotDecrease` | internal/recording/recorder.go:100-105 | chunks written in order of time play back in order of time |
| `Recording.RecordingWriter.constructor` | internal/recording/recorder.go:45-84 | a new recording is its header line with version 2, the terminal size and the start time in seconds |
| `Recording.WrittenFilePlaysInOrder` | internal/recording/recorder.go:88-113 | whatever a writer has written without a cut plays back completely, in order of time, for every clock that does not go back |
| `Recording.CutRecording` | internal/recording/recorder.go:105-110 | whatever the file system cut short, the player reads the header and the events of the lines as they ended up |
| `Recording.OnlyTheNextIsSpoilt` | internal/recording/recorder.go:105-110 | a cut line spoils at most the chunk that follows it: any other has its own line and plays back as itself behind the events before it, whatever is written or cut later |
| `Recording.RecordingWriter.Write` | internal/recording/recorder.go:88-113 | a non-empty chunk on an open writer is appended as one event with its elapsed time and counted, or leaves the bytes that were taken and is not counted; anything else changes nothing; times in the file never go back |
| `Recording.RecordingWriter.Close` | internal/recording/recorder.go:117-140 | the first close reports the total of accepted bytes and the duration, later ones zeros |
| `RecordingPool.RunKeeps` | internal/recording/recorder.go:175-242 | the pool invariant holds after every interleaving, shutdown included |
| `RecordingPool.ClosedIsFrozen` | internal/recording/recorder.go:88-98 | nothing is added to a recording after it is closed, also by a goroutine that fetched its writer before |
| `RecordingPool.ReportsAreFinal` | internal/recording/recorder.go:117-140 | a reported size equals the accepted bytes for good, and no recording is reported twice |
| `RecordingPool.StopReportsRealSize` | internal/recording/recorder.go:195-211 | a stop that took a writer always closes an open one, so it reports the real size |
| `RecordingPool.OneOpenPerSession` | internal/recording/recorder.go:175-192 | two open files of one session exist only while one of them is being closed |
| `RecordingPool.NoOutputCrossesSessions` | internal/recording/recorder.go:214-222 | every piece in a file was written for that file's session |
| `RecordingPool.NothingLeaksOpen` | internal/recording/recorder.go:233-242 | with nothing active and no stop under way every file is closed |
| `RecordingPool.WriteLandsIff` | internal/recording/recorder.go:214-222 | a write that fetched its writer is recorded exactly when that writer is still open, also during shutdown; then the recording is in the pool or taken by a stop, and outside shutdown either of these means it is open |
| `RecordingPool.RecordingLifecycle` | internal/recording/recorder.go:175-222 | from any point of any run outside shutdown, a session that is not recorded can be started, written to and stopped, and is then one more closed file with exactly its non-empty chunks, reported with their length; all else is as before |
| `RecordingPool.ShutdownCompletes` | internal/recording/recorder.go:233-242 | from any point of any run shutdown can close every recording in the pool with its contents intact, touches no other file and leaves the pool empty |
| `ActiveRecordings.RecordingPool.constructor` | internal/recording/recorder.go:166-171 | a new pool has no recordings |
| `ActiveRecordings.RecordingPool.StartRecording` | internal/recording/recorder.go:175-192 | starting succeeds exactly when the session has no recording and the file can be created, and then adds a fresh empty one |
| `ActiveRecordings.RecordingPool.StopRecording` | internal/recording/recorder.go:195-211 | the session leaves the pool, its writer is closed with its contents intact, and the size returned is the accepted total |
| `ActiveRecordings.RecordingPool.WriteIfRecording` | internal/recording/recorder.go:214-222 | the chunk goes to the session's recording and to no other |
| `ActiveRecordings.RecordingPool.StopAll` | internal/recording/recorder.go:233-242 | the loop closes every recording with its contents intact and empties the pool |
| `LineDiff.JoinLines` | internal/api/context.go:502-512 | joining the lines of a text gives the text |
| `LineDiff.LinesJoin` | internal/api/context.go:502-512 | splitting joined lines gives the lines |
| `LineDiff.SidesRecovered` | internal/api/context.go:513-537 | from any position the marked lines contain both remaining sides completely and in order |
| `LineDiff.LinesAreMarked` | internal/api/context.go:513-537 | a position is left unmarked exactly when both texts have the same line there; otherwise the old line comes marked as removed before the new one marked as added |
| `LineDiff.DiffIsLossless` | internal/api/context.go:502-539 | both texts can be recovered from their diff |
| `LineDiff.DiffEmptyIffEqual` | internal/api/context.go:502-506 | the diff is empty exactly when the texts are equal |
| `LineDiff.MarkLines` | internal/api/context.go:513-537 | the two-index loop produces the specified marking |
| `LineDiff.ComputeDiff` | internal/api/context.go:502-539 | the computed diff is empty exactly for equal texts and otherwise recovers both |
| `Paging.LimitOf` | internal/api/pagination.go:32-55 | every request gets a page size between 1 and 200: the requested one if it lies there, 200 above, and 50 for none or one below 1 |
| `Paging.OrderedContents` | internal/api/handlers.go:315-321 | ordering keeps every row exactly as often as it occurs |
| `Paging.OrderedDescending` | internal/api/handlers.go:315-321 | rows with distinct ids come out strictly descending by creation time and id |
| `Paging.WhereOrdered` | internal/api/handlers.go:315-321 | selecting rows below a key before or after ordering gives the same page |
| `Paging.PageAfter` | internal/api/handlers.go:311-333 | a page after session i - 1 is the next stretch of the ordered list |
| `Paging.NextCursorIff` | internal/api/handlers.go:367-393 | a page has at most limit rows and names a next cursor, the id of its last row, exactly when it is full |
| `Paging.SessionsNewestFirst` | internal/api/handlers.go:315-321 | the order is newest first, then by id from the greatest down |
| `Paging.FollowSessions` | internal/api/handlers.go:306-393 | following next_cursor ends and collects exactly the viewer's rows, each once, with one request for each full page and one more |
| `Paging.ListAgents` | internal/api/agents.go:211-255 | slice bounds are valid for every cursor, and a page is the stretch after the cursor, one shorter than the first page |
| `Paging.FollowAgents` | internal/api/agents.go:211-255 | following next_cursor gives exactly the first min(n, 2 * limit - 1) agents, so all of them only if n <= 2 * limit - 1 |
| `ContextVersions.HistoryIsTruthful` | internal/database/context.go:110-149 | in every interleaving each history entry is the text its version had, entries are in version order, one per copy, and the version counts the writes |
| `ContextVersions.VersionsAreWrites` | internal/database/context.go:110-149 | version v of the file is the text of its v-th write |
| `ContextVersions.DistinctIffNoOverlap` | internal/database/context.go:110-149 | history versions are distinct exactly when no copy is made while another copy of the same version awaits its write |
| `ContextVersions.RecordedIffCopied` | internal/database/context.go:110-149 | in every interleaving a version is in the history exactly when a copy was made between the write of that version and the next write |
| `ContextVersions.InterleavedUpdatesLoseAVersion` | internal/database/context.go:121-149 | from any point of any run, two interleaved updates record one version twice and the one in between never |
| `ContextVersions.SerialHistory` | internal/database/context.go:110-149 | with one caller at a time history is exactly the versions that updates replaced |
| `ContextVersions.VersionConservation` | internal/grpc/gateway.go:690-706 | with one caller at a time versions increase, stay below the current one, carry their text, and number version - 1 minus the satellite's reports |
| `ContextVersions.CompleteHistory` | internal/database/context.go:110-149 | a file that only updates touched has every past version in its history |
| `ContextVersions.ContextFile.constructor` | internal/database/context.go:37-52 | a new file is at version 1 without history |
| `ContextVersions.ContextFile.UpdateContextFile` | internal/database/context.go:110-149 | the old version goes into the history and the text and version move on; a missing file is left alone |
| `ContextVersions.ContextFile.ReportChange` | internal/grpc/gateway.go:690-706 | a satellite's change creates the file or overwrites it without a history entry |
| `BinarySwap.UpdateKeepsTheBinary` | cmd/daao/update.go:88-104 | whatever fails, the old binary is at the executable path or in the backup; success, failure and an empty executable path are each characterised by the renames that worked |
| `BinarySwap.RollbackKeepsBoth` | cmd/daao/update.go:133-154 | whatever fails, both binaries remain at different places, and success is characterised by the renames that worked |
| `BinarySwap.TwoRollbacksRestore` | cmd/daao/update.go:139-154 | two successful rollbacks bring the first binary back, and the backup exactly when the last rename worked |
| `BinarySwap.WorkingBinarySurvives` | cmd/daao/update.go:79-154 | after any sequence of commands with any failures, the binary that last ran still exists |
| `BinarySwap.ExecutableMissingIff` | cmd/daao/update.go:79-154 | the executable path is empty exactly when some command failed both to install and to restore |
| `BinarySwap.StuckIsStable` | cmd/daao/update.go:79-86 | a command that finds no executable leaves the binaries alone |
| `BinarySwap.Disk.UpdateCommand` | cmd/daao/update.go:68-104 | the command's file operations have the outcome the results above speak of, download removed |
| `BinarySwap.Disk.RollbackCommand` | cmd/daao/update.go:124-154 | the same for rollback, refused without a backup |
| `Dispatch.HasAllRequiredTags` | internal/dispatch/dispatcher.go:250-266 | true exactly when every required tag is present |
| `Dispatch.ComputeMatchedTags` | internal/dispatch/dispatcher.go:269-286 | the preferred tags the satellite has, in preference order |
| `Dispatch.CountMatchedTags` | internal/dispatch/dispatcher.go:308-325 | the count is the length of the matched-tag list |
| `Dispatch.FilterCandidate` | internal/dispatch/dispatcher.go:228-247 | a candidate passes exactly with a stream, telemetry at most 60 seconds old and all required tags |
| `Dispatch.ScoreBounds` | internal/dispatch/dispatcher.go:291-305 | scores lie in [0, 1 + 0.05 * preferred tags], the top reached exactly by an idle satellite with all of them |
| `Dispatch.ScoreIs` | internal/dispatch/dispatcher.go:291-305 | a point of CPU load costs 0.005, one of memory 0.003, one of disk 0.002, and a matched preference brings 0.05 |
| `Dispatch.LowerLoadScoresHigher` | internal/dispatch/dispatcher.go:291-305 | lower load never lowers the score, and equal scores mean equal loads |
| `Dispatch.MoreTagsMatchMore` | internal/dispatch/dispatcher.go:308-325 | more tags never match fewer preferences |
| `Dispatch.PassingMembers` | internal/dispatch/dispatcher.go:139-224 | a result is a candidate exactly when some satellite passes all filters and scores to it |
| `Dispatch.Candidates` | internal/dispatch/dispatcher.go:139-224 | the loop collects exactly the passing satellites with their scores and tags |
| `Dispatch.SortByScore` | internal/dispatch/dispatcher.go:122-124 | a permutation with descending scores |
| `Dispatch.Preview` | internal/dispatch/dispatcher.go:115-136 | the passing candidates, each as often as it passed, best first |
| `Dispatch.Dispatch` | internal/dispatch/dispatcher.go:89-111 | the result passes all filters and no passing satellite scores higher; there is none exactly when none passes |

## Left out

- RingBuffer.OverflowKeepsTheOldest: requires a boundary byte among the stored bytes after the first, as every UTF-8 text of five bytes or more has one (RingBuffer.TextEndsInside); a buffer filled by one character, or by bytes that are not text, is covered by RingBuffer.SnapshotTurns.
- RingBuffer.OverflowedRing: the same.
- RingBuffer.KeepsLatestIff: the same.
- Reconciliation.Satellite.HandleSessionReconciliation: states the handler undisturbed; its interleaving with creates and kills is in the run results.
- ReplayLive.Coverage: speaks of one viewer that stays until the hub closes the channel, and of whole inserts that succeed or fail.
- Recording.RecordingWriter.Write: floating-point rounding of the elapsed time is not modelled; microseconds are rounded from nanoseconds.
- Recording.Parse: offsets are reals, not rounded to doubles.
- Dispatch.SortByScore: stands for the library sort; any sort with descending scores has the same contract.
- StreamWriter.Daemon.StreamWriter: assumes the old connection's writer has returned before the next one starts.
- Paging.FollowSessions: the table does not change while the cursor is followed, and every query succeeds.
- BinarySwap.WorkingBinarySurvives: a rename is atomic, and nothing else touches the three paths.
- Playback timing (`StreamEvents`), playback URLs and the startup scan for unlisted recordings: easy or file-system bound.
- The byte-level ANSI helpers of the ring buffer that the write path does not use, and its binary snapshots.
- Session transition rules, the Dead Man's Switch, RBAC, notifications, licences: tables and getters that would only add easy members.
- Protocol buffers, routing, JSON request decoding, metrics, logging, TLS and authentication: wiring or foreign code.
- SQL text: a table is a sequence or a map and each statement is one atomic step.
- PTYs, process spawning and the Windows service: operating system calls.
- The cockpit's user interface.
