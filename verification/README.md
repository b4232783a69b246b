# The MCP multiplexer, its configuration tools and its launcher, verified

`rust-mux` lets many MCP clients share one child process. A reader per client, a writer per
client, a router, a reaper, a heartbeat inspector and a manager of child processes all work on
one locked `MuxState`. Around the daemon there are tools that collect MCP servers from client
configurations, merge them, generate configurations, rewrite the originals with backups, and a
terminal launcher. This project models all three parts and proves what they promise.

## How it is organised

**The protocol.** `Shared.dfy` gives the effect of every lock region on the shared state as a
function. `Protocol.dfy` is the running daemon as a step machine: a step is one lock region or
one channel operation, and the tasks interleave in every possible way. Children are arbitrary:
at any time any child that was ever started may emit any message, unless the configuration of
the model says that children are honest. `IsRun(s, labels)` says that `labels` is a run from `s`
and `Final(s, labels)` is where it ends; the theorems below are about every run from an
`Initial` state. Requests carry a ticket (the position at which they arrived) and the book keeps
a place for each of them; both are history, and no step depends on them.

Invariants, one module each: `Ledger` (conservation), `Isolation`, `Generations`, `Forwarding`,
`Renumbering`, `Announcement`, `Queueing`, `Lifecycle`, `Timing`, `Deadlines` (an overdue request
is answered), `Initialization`, `Responses`, `Holding` (nothing passes before the handshake),
`Filing` (who was ever on file under which id) and `Provenance` (which child's message an answer
is). `Effects` takes the step of a client apart and `Frames` says what steps leave alone.
`Counterexamples` holds the runs that refute a natural claim, with the exact condition under which
it does hold.

`LockedState.dfy` has the object itself, a class whose methods update its fields in the loops the
daemon uses, each proved to have the effect given in `Shared`. `Tasks.dfy` has the handlers as
they are programmed (`handle_client_message`, the router's loop body, the reaper's tick, the
manager's turns) over that object and the real queues. A handler is proved to be a run of the
machine, so every theorem about runs holds of every state it leaves, and to end in the only state
in which its task can come to rest undisturbed. A reader that meets a full queue stops there and
is resumed where it stopped. `Outcomes.dfy` says, message by message, what that state is: what is
in the queue, on the channels, on the table and in the buffer.

`Supervision.dfy` has the restart loop with its backoff, proved to be a run of the machine's
manager; `Heartbeat.dfy` has the bookkeeping of the probes.

**Configurations.** `Entries` (what one entry of a file says), `Scan` and `Merge` (collecting,
fresh names, merging), `Renames` (which names a merge gives, read off the scans), `Generate`
(daemon and client configurations), `Wizard` (selection), `Origins` (which client an entry is shown
under), `Rewrite` (rewriting and scanning again), `Rollback` and `Backups` (backups and undoing).
Configuration files are values and the file system is a map.

**Terminal.** `Launch` (shell quoting nested in KDL quoting), `Deck` (what the argument list
says), `Pane` (the pane's command taken apart by the shell), `Environment` (the variables it sets)
and `Board` (the order of runs).

## What turned out differently

The model follows the code. Where a natural reading or the documentation says something else:

- `mux-agent/README.md:9` says `initialize` is executed once. It is not: nothing sets
  `initializing`, so the initialize requests of two clients can both be handed to the same child
  (`Counterexamples.InitializeCanBeSentTwice`). An initialize goes to the child exactly when no
  response is cached and the pending table has room (`Initialization.InitializeGoesToChildIff`);
  once one is cached, none does until the cache is cleared.
- A handshake notification is forwarded with whatever id it carries. If that id looks like one
  the daemon hands out, a late message of an earlier child can be matched with a later request,
  and be cached. That no run of the daemon ever does the one or the other is true exactly when
  clients are known to send no such notification and children to answer only ids written to them
  (`Counterexamples.LateRepliesAreHarmlessIff`, `Counterexamples.LateRepliesAreNotCachedIff`).
- When the restart limit is reached the manager publishes the status while it holds the lock that
  publishing takes (`mux-agent/src/runtime/server.rs:188-195`, `mux-agent/src/state.rs:295`), so
  it waits for itself, and every other task for it. The model has a manager that stops there and
  closes the queue, as the code means to. The runs of the code are runs of the model in which
  nothing happens any more, so what is proved of every run holds of them too.
- `server_initialized` is never cleared, so of all children a run starts at most one is ever told
  `notifications/initialized` (`Announcement.AtMostOneChildIsTold`). It need not be the first: the
  queue outlives a child, and with it an announcement that was still waiting. Some run tells a later
  child exactly when the restart limit allows one (`Counterexamples.LaterChildIsToldIff`).
- The comment at `mux-agent/src/scan.rs:622` names command, arguments and environment as what
  makes services identical; the code also compares working directory and socket, as the model does.
- A service that keeps its name is not compared with names already given to renamed ones, so two
  merged services can share a name (`Merge.RenameCanClash`, with the exact condition on the scanned
  names and hosts in `Renames.MergedNamesDistinctIff`).
- The key that attributes a wizard entry to a client joins arguments by spaces, so a service can be
  shown under a client that does not have it (`Origins.OriginCanBeWrong`).
- The launcher drops characters from the names of exported variables. A name that then begins with
  a digit is refused by the shell, and two keys can end up as one variable
  (`Environment.EnvironmentCanFail`, with the exact condition in
  `Environment.EnvironmentArrivesIff`).
- When no key is fixed, scan and rewrite of a JSON file can look under different keys
  (`Rewrite.AutoRescanCanFail`, with the exact condition in `Rewrite.AutoRescanIff`).
- Unticking a service in the wizard does not always drop it: another ticked entry with the same
  command, arguments, socket and environment speaks for it if it has the same name (and, say,
  another working directory) or a `-from-` in its own name (`Wizard.UntickedCanBeKept`, with the
  exact condition in `Wizard.TickIsHonouredIff`).
- The printed rollback commands run in the order of the plan. They restore a file exactly when it
  was written at most once or its last write but one put its first contents back
  (`Rollback.PrintedOrderRestoresIff`, `Rollback.PrintedOrderCanFail`); in reverse order they
  always do. A file that did not exist is not removed.
- The board lists the runs of one kind with the earliest update first and those without a
  timestamp before all others, because the comparison is reversed twice (`Board.OldestFirst`,
  `Board.NewestComesLast`).

## Model

| member | source | states |
|---|---|---|
| Ledger.EveryRequestInOnePlace | mux-agent/src/runtime/client.rs:149-372 | Conservation: in every run a request with an id is never in two places (reader, buffer, waiting list, pending table, router, reaper, or answered on its client's channel), is in exactly one while its client is registered, and is never on another client's side; so nothing is answered twice under any interleaving of response, timeout, reset and disconnect |
| Isolation.ClientsSeeOnlyTheirOwnIds | mux-agent/src/runtime/server.rs:56-104 | Whatever ids children emit, every answer on a client's channel carries the id of the request it answers, and that client sent it |
| Isolation.ForeignIdsMatchNothing | mux-agent/src/runtime/mod.rs:61-70 | A child message with a heartbeat id or an integer id reaches no client and takes nothing off the pending table |
| Responses.ResponseReachesItsAsker | mux-agent/src/runtime/server.rs:63-104 | A turn of the router that nothing interrupts, in every reachable state: a child message with an outstanding id is delivered, once, to the client whose request was filed under it, as an object that differs in the id alone and has the id that client used; nobody else is sent anything except waiters for an initialize |
| Responses.UnknownIdsChangeNothing | mux-agent/src/runtime/mod.rs:61-73 | A child message with any other id, null apart, leaves the shared state as it is |
| Responses.NotificationsReachEverybody | mux-agent/src/runtime/server.rs:32-61 | A child message without an id, or with a null one, is sent as it is, once, to every registered client and to nobody else, and the tables stay as they are |
| Provenance.RepliesAreChildAnswers | mux-agent/src/runtime/server.rs:56-104 | In every run, under every interleaving, an answer on a client's channel agrees in every member but the id with a message some child emitted, has the id the client used, and that message's id is the one its request was on file under (for an initialize, that some initialize was); with honest children and plain notifications that child was given the request under that id |
| Provenance.ComplaintsAreErrors | mux-agent/src/state.rs:247-256 | In every run, whatever a client is sent that is no answer and no broadcast has an error with code -32000 and one of the daemon's five reasons, and no result |
| Filing.IdsAreNeverReused | mux-agent/src/runtime/client.rs:350-360 | In a whole run no two requests are ever on the pending table under the same id |
| Renumbering.RequestsAreForwardedFaithfully | mux-agent/src/runtime/client.rs:339-368 | Every request in the queue to the child agrees with its client's message in every member but the id, and no two ever queued share an id |
| Ids.GlobalIdInjective | mux-agent/src/runtime/client.rs:351 | A global id determines its client and its sequence number |
| Ids.NextIdIsFresh | mux-agent/src/state.rs:197-201 | The next sequence number gives an id that was never handed out, for any client |
| Ids.IdSpacesDisjoint | mux-agent/src/runtime/heartbeat.rs:326-328 | Global ids, heartbeat ids and integer ids never coincide |
| Ids.Formats | mux-agent/src/runtime/client.rs:351 | What a global id and a heartbeat id look like |
| Generations.ResponsesComeFromTheCurrentChild | mux-agent/src/runtime/server.rs:233-347 | With honest children a matched response comes from the child right after the last one reset; a late message changes nothing |
| Generations.StaleCacheOnlyUntilReset | mux-agent/src/state.rs:319-326 | A cached initialize of an earlier child exists only while the reset of that child is still queued |
| Counterexamples.LateRepliesAreHarmlessIff | mux-agent/src/runtime/client.rs:168-190 | The premise about children and notifications is exact for matching: no run matches a response of a child already reset if and only if children are honest and handshake notifications carry no id the daemon could hand out |
| Counterexamples.LateRepliesAreNotCachedIff | mux-agent/src/runtime/server.rs:76-90 | It is exact for caching too: no run keeps a cached response of a child whose reset has been handled if and only if the same holds |
| Counterexamples.InitializeCanBeSentTwice | mux-agent/src/runtime/client.rs:260-294 | Under every configuration some run hands one child two initialize requests while nothing is cached |
| Initialization.InitializeGoesToChildIff | mux-agent/src/runtime/client.rs:242-294 | In every run an initialize is sent to the child, and filed, exactly when nothing is cached and the table has room; nobody ever waits |
| Initialization.CachedInitializeIsServedLocally | mux-agent/src/runtime/client.rs:250-258 | From caching a response until the cache is cleared no new initialize reaches the child, in any run |
| Initialization.WaitersAreAnswered | mux-agent/src/runtime/server.rs:76-90 | From any state, the response to an initialize is sent to every registered waiter, with only the id replaced by its own, in order, and to nobody else |
| Forwarding.BufferingRefinesForwarding | mux-agent/src/runtime/client.rs:192-223 | For a registered client the requests accepted from it are those already queued followed by those on their way, in the order sent; after the handshake the buffer is empty |
| Holding.NothingPassesBeforeTheHandshake | mux-agent/src/runtime/client.rs:296-312 | In every run in which a client's handshake has not ended, none of its requests but an initialize is queued, filed or refused; they are in its buffer, unchanged and in the order sent |
| Holding.HandshakeDeadline | mux-agent/src/state.rs:222-228 | A client that connects and does not end its handshake can be thrown out by its idle reader exactly when more than ten seconds have passed |
| Announcement.AnnouncedAtMostOnce | mux-agent/src/runtime/client.rs:172-190 | At most one `notifications/initialized` enters the queue in a whole run, over all clients and children |
| Announcement.AtMostOneChildIsTold | mux-agent/src/runtime/client.rs:172-190 | Over all children of a run at most one write is of `notifications/initialized` |
| Counterexamples.LaterChildIsToldIff | mux-agent/src/runtime/server.rs:257-347 | Some run tells it to a child other than the first if and only if the restart limit is not one |
| Lifecycle.DisconnectIsFinal | mux-agent/src/runtime/client.rs:122-129 | After the unregister block no later state has a sender, handshake, pending entry or waiter of that client |
| Queueing.QueueOrderSurvivesRestarts | mux-agent/src/runtime/server.rs:165-347 | The messages offered to children are a prefix of those queued, in order, each to one child; until the manager stops, what has not been offered is still queued or in its hand; with lazy start the first message comes before the first child |
| Queueing.AtMostMaxRestartsChildren | mux-agent/src/runtime/server.rs:188-195 | With a limit m > 0 at most m children are ever started |
| Timing.BoundedWaitingAndMemory | mux-agent/src/runtime/mod.rs:96-137 | At most MAX_PENDING requests are outstanding, and with ticks at most D apart none is older than the timeout plus D |
| Deadlines.OverdueIsAnswered | mux-agent/src/runtime/mod.rs:96-137 | In every run with ticks at most D apart, a request that was on file more than the timeout plus D ago, and whose client is registered, has exactly one answer: on its client's channel, or in the hands of the router or reaper, and on the channel when these two are at rest |
| Timing.ReapIsExact | mux-agent/src/runtime/mod.rs:113-124 | A tick removes exactly the entries older than the timeout and collects each of them once |
| LockedState.MuxState.constructor | mux-agent/src/state.rs:144-172 | The initial tables and counters |
| LockedState.MuxState.RegisterClient | mux-agent/src/state.rs:174-188 | A new client gets the next id, a sender and an open handshake; nothing else changes |
| LockedState.MuxState.UnregisterClient | mux-agent/src/state.rs:190-195 | Removes sender, handshake, pending entries and waiters of one client and keeps all others |
| LockedState.MuxState.CompleteHandshake | mux-agent/src/state.rs:203-214 | Hands back the buffered requests, empties the buffer and marks the handshake; no effect without one |
| LockedState.MuxState.IsHandshakeComplete | mux-agent/src/state.rs:216-220 | True unless there is a handshake that is not initialized |
| LockedState.MuxState.IsHandshakeTimedOut | mux-agent/src/state.rs:222-228 | True exactly for an uninitialized handshake older than ten seconds |
| LockedState.MuxState.BufferMessage | mux-agent/src/state.rs:230-234 | Appends to the client's buffer, or drops the message without a handshake |
| LockedState.MuxState.ResetState | mux-agent/src/state.rs:319-337 | Empties the tables and sends each pending entry and each waiter one error, for some enumeration of the hash map |
| LockedState.MuxState.InitializeRequest | mux-agent/src/runtime/client.rs:243-285 | Cache, waiting list, overload or a filed entry, in this order, and the id exactly when filed |
| LockedState.MuxState.FileOrReject | mux-agent/src/runtime/client.rs:339-362 | Either an error to the client or an entry under a fresh id, decided by the cap |
| LockedState.MuxState.BroadcastAll | mux-agent/src/runtime/server.rs:32-54 | Every registered client is sent the message once |
| LockedState.MuxState.CacheInitialize | mux-agent/src/runtime/server.rs:76-90 | Caches the response, clears the flag and answers all waiters in order |
| LockedState.MuxState.TakeExpired | mux-agent/src/runtime/mod.rs:113-124 | Removes exactly the expired entries and lists them |
| LockedState.MuxState.FailAll | mux-agent/src/runtime/mod.rs:125-132 | One error per listed request, in order, to registered clients only |
| Tasks.OneMessageOneOutcome | mux-agent/src/runtime/client.rs:140-323 | However a reader handles one message undisturbed, it takes the same steps to the same state |
| Outcomes.LargeMessageIsRefused | mux-agent/src/runtime/client.rs:149-160 | A message that is too large is answered with an error for its id, or for null, and changes nothing else |
| Outcomes.NotificationIsForwarded | mux-agent/src/runtime/client.rs:226-235 | A notification is queued as it is when the queue has room, and dropped otherwise |
| Outcomes.EarlyRequestIsBuffered | mux-agent/src/runtime/client.rs:296-312 | A request before the end of the handshake goes to the end of the buffer and nowhere else |
| Outcomes.RequestIsForwarded | mux-agent/src/runtime/client.rs:314-372 | A request after it is filed under a new id and queued with only the id replaced, or refused when 2048 are outstanding |
| Outcomes.InitializeIsHandled | mux-agent/src/runtime/client.rs:242-294 | An initialize is answered from the cache with only the id replaced, put on the waiting list, filed and queued, or refused; in every case the client is marked |
| Outcomes.InitializedIsHandled | mux-agent/src/runtime/client.rs:168-223 | The end of a handshake: the first one of all is announced if the queue has room, no other is, the buffer is emptied and only requests follow |
| Outcomes.LateClientIsToldAndGone | mux-agent/src/runtime/client.rs:62-129 | A client that is late with its handshake is sent an error for null and is then gone |
| Outcomes.ProbeIsAPing | mux-agent/src/runtime/heartbeat.rs:217-236 | A probe is a ping under the next heartbeat id and changes only the queue |
| Outcomes.ProbesFollowTheFirstHandshake | mux-agent/src/runtime/heartbeat.rs:197-215 | In every run a probe is queued only after some client has been through its handshake |
| Outcomes.LostChildLeavesNoCache | mux-agent/src/runtime/server.rs:324-346 | Once a child is cleared away nothing is cached, and without a restart the queue is closed and empty |
| Outcomes.ReapedAreToldOfTheTimeout | mux-agent/src/runtime/mod.rs:125-132 | What the reaper reports are errors that say timeout, for the requests it took and their own ids |
| Outcomes.ResetTellsOfTheRestart | mux-agent/src/state.rs:319-337 | What a reset reports are errors that say restart, for what was on file and for the waiters, with their own ids |
| Tasks.Daemon.Accept | mux-agent/src/runtime/client.rs:48-52 | A connection is registered under a new client id |
| Tasks.Daemon.HandleClientMessage | mux-agent/src/runtime/client.rs:140-323 | The handler ends, or waits where the full queue stopped it, in the one state the reader's own steps lead to, and that state is reachable |
| Tasks.Daemon.ForwardRequest | mux-agent/src/runtime/client.rs:326-372 | Files and queues the first request in hand, refuses it, or waits with it for room in the queue |
| Tasks.Daemon.FlushBuffered | mux-agent/src/runtime/client.rs:198-218 | Forwards the held requests oldest first, until none is left or the queue is full |
| Tasks.Daemon.Resume | mux-agent/src/runtime/client.rs:363-371 | A reader that waited for room, whatever other tasks did meanwhile, sends what it has in hand and then forwards all that was left, up to the state its own steps lead to |
| Tasks.Daemon.Disconnect | mux-agent/src/runtime/client.rs:122-125 | Leaving the loop runs the unregister block |
| Tasks.Daemon.HandleNextEvent | mux-agent/src/runtime/mod.rs:59-81 | One turn of the router consumes one event and has exactly the effect of routing the message or of the reset |
| Tasks.Daemon.AnswerClient | mux-agent/src/runtime/server.rs:75-106 | Caches an initialize first, then looks the client up and delivers |
| Tasks.Daemon.ReapTimeouts | mux-agent/src/runtime/mod.rs:107-134 | One tick takes the expired entries and reports all of them |
| Tasks.Daemon.OfferNext | mux-agent/src/runtime/server.rs:269-286 | The oldest queued message, and only it, leaves the queue and is offered to the child |
| Tasks.Daemon.EndChild | mux-agent/src/runtime/server.rs:317-346 | The reset is queued behind all earlier events, the cache cleared, and the queue closed unless there will be another child |
| Supervision.ServerManager | mux-agent/src/runtime/server.rs:135-350 | At most m children, at most one sleep after each, the first of the configured length and each later one twice as long up to the maximum, initial + (m - 1) * max in all, messages offered in order and once, lazy start with the first message; and all of it is a run of the step machine's manager, with the same children, restarts and writes |
| Supervision.FeedChild | mux-agent/src/runtime/server.rs:260-315 | The write loop asks for one message per offer and offers them in order; it asks for another child exactly when it ended with a failed write, the child's exit or the heartbeat's signal, and otherwise ends only with a shutdown, the closed queue or the script |
| Supervision.BoundedDowntime | mux-agent/src/runtime/server.rs:162-195 | With a limit m all sleeps together last at most initial + (m - 1) * max |
| Heartbeat.HeartbeatState.NextId | mux-agent/src/runtime/heartbeat.rs:96-100 | Hands out the next heartbeat id |
| Heartbeat.HeartbeatState.RecordSuccess | mux-agent/src/runtime/heartbeat.rs:102-121 | The metrics stay those of the history of probes, one success longer |
| Heartbeat.HeartbeatState.RecordFailure | mux-agent/src/runtime/heartbeat.rs:123-126 | The metrics stay those of the history of probes, one failure longer |
| Heartbeat.HeartbeatState.ShouldRestart | mux-agent/src/runtime/heartbeat.rs:128-130 | A restart is signalled exactly when the last max_failures probes all failed |
| Heartbeat.RestartIffTrailingFailures | mux-agent/src/runtime/heartbeat.rs:311-323 | The counter of consecutive failures reaches n exactly when the last n probes failed |
| Heartbeat.AverageBetween | mux-agent/src/runtime/heartbeat.rs:109-118 | The reported average lies between any bounds on the last ten samples |
| Heartbeat.AverageIsTheMean | mux-agent/src/runtime/heartbeat.rs:109-118 | The reported average is the sum of the samples divided by their number, rounded down |
| Heartbeat.WindowHoldsTheLastTen | mux-agent/src/runtime/heartbeat.rs:103-118 | The average is taken over the last ten samples, or all if there are fewer |
| Heartbeat.EveryOutcomeCounted | mux-agent/src/runtime/heartbeat.rs:120-126 | Successes and failures add up to the probes recorded |
| Scan.EnsureUnique | mux-agent/src/scan.rs:710-722 | Finds the first free name within one more probe than there are names in use |
| Scan.Pigeonhole | mux-agent/src/scan.rs:714-721 | Taken candidates are distinct, so there are no more of them than names in use |
| Scan.MergeServices | mux-agent/src/scan.rs:628-692 | The loops compute the merge: names in order, one service per class, conflicts renamed freshly |
| Scan.DistinctRepresents | mux-agent/src/scan.rs:645-654 | Deduplication keeps exactly one of all services with the same command, arguments, directory, socket and environment |
| Merge.MergeIsPartition | mux-agent/src/scan.rs:628-692 | For every scanned service exactly one output of its name has the same command, arguments, directory, socket and environment; every output is one of the scanned services with at most its name replaced, by a `-from-` rename |
| Merge.ConflictsReportedIff | mux-agent/src/scan.rs:656-676 | A conflict is reported for a name exactly when two of its services differ in command, arguments, directory, socket or environment, with one variant of each |
| Merge.EnabledFlagIsIgnored | mux-agent/src/scan.rs:694-700 | Services of one name that differ in the enabled flag alone become one and are no conflict |
| Renames.MergedNamesDistinctIff | mux-agent/src/scan.rs:656-685 | The merged names are distinct if and only if no name without conflict is `o-from-L` or `o-from-L-2` up to `o-from-L-c`, where `o` is a name in conflict and c of its classes were first found on hosts labelled L |
| Renames.MergedNames | mux-agent/src/scan.rs:643-692 | Exactly which names a merge gives: the names without conflict, and these renames |
| Renames.MergeKeepsTheFirst | mux-agent/src/scan.rs:645-685 | Of all services of a name that are the same the merge keeps the one found first, with at most its name replaced |
| Renames.RenamesDiffer | mux-agent/src/scan.rs:678-685 | A rename determines the name, the kind of host and the number it was made from |
| Renames.RenamesLook | mux-agent/src/scan.rs:678-685 | What the renames look like, for every kind of host |
| Merge.PlainNamesStayDistinct | mux-agent/src/scan.rs:678-685 | Without `-from-` in any scanned name the merged names are distinct |
| Merge.RenameCanClash | mux-agent/src/scan.rs:656-661 | Two hosts whose merge has two services of one name |
| Merge.MergeKeepsDistinctServices | mux-agent/src/scan.rs:628-692 | Merging services with distinct names changes none and reports no conflict |
| Merge.MergeIsIdempotent | mux-agent/src/scan.rs:628-692 | When the merged names are distinct, merging again, over any hosts and in any order, gives the same services and no conflict |
| Generate.BuildDaemonConfig | mux-agent/src/mux_gen.rs:215-251 | One entry per name, from the last service that has it |
| Generate.BuildClientServers | mux-agent/src/mux_gen.rs:267-340 | One proxy entry per name, from the last service that has it |
| Generate.LastNamedIsLast | mux-agent/src/mux_gen.rs:215-251 | The service that keeps a name is the one that no service of that name follows |
| Generate.ClientsReachTheDaemon | mux-agent/src/mux_gen.rs:215-340 | Daemon and clients have the same names, and each client runs the proxy on the socket the daemon listens on for that name, with the same environment |
| Generate.SocketsAreNamedAfterServices | mux-agent/src/mux_gen.rs:215-251 | A service is reached over its own socket, or over the one in the socket directory that is named after it |
| Generate.NothingLostIffDistinct | mux-agent/src/mux_gen.rs:215-251 | The daemon has as many entries as there are services exactly when their names differ |
| Generate.EveryScannedServiceIsServed | mux-agent/src/mux_gen.rs:375-385 | The daemon has as many entries as there are merged services if and only if no name without conflict is called like a rename, and then every scanned service has an entry with its command, arguments, directory and environment |
| Generate.GroupScansByKind | mux-agent/src/mux_gen.rs:421-444 | For every kind of client that was scanned exactly one result: the merge of all its scans in order, under the host of the first |
| Generate.EveryClientKeepsItsServices | mux-agent/src/mux_gen.rs:421-444 | Every service of every scan is in the result of its kind, under its own name or a rename |
| Wizard.FromApp | mux-agent/src/wizard/persist.rs:105-149 | The filter lets a service pass exactly when a ticked entry with the same command, arguments, socket and environment has its name or a `-from-` name |
| Wizard.RetainSelected | mux-agent/src/wizard/persist.rs:45-48 | Keeps exactly the services of a scan that pass the filter, in order |
| Wizard.AllTickedKeepsEverything | mux-agent/src/wizard/persist.rs:39-50 | With every entry ticked, filtering a scan returns it unchanged, renamed conflicts included |
| Wizard.TickedMeansKept | mux-agent/src/wizard/persist.rs:122-148 | A ticked entry keeps every scanned service it stands for |
| Wizard.TickIsHonouredIff | mux-agent/src/wizard/persist.rs:92-149 | A scanned service is kept exactly when its entry is ticked or another ticked entry of its shape has its name or a `-from-` in its own |
| Wizard.TickDecides | mux-agent/src/wizard/persist.rs:92-149 | When no two entries have the same shape, the service's own entry alone decides |
| Wizard.UntickedCanBeKept | mux-agent/src/wizard/persist.rs:122-148 | One host with two services, of which the unticked one is kept |
| Wizard.BuildServices | mux-agent/src/wizard/services.rs:48-103 | The list has one ticked entry for every merged service, shown under the host of the first scanned service with its key |
| Wizard.EntriesHaveClients | mux-agent/src/wizard/services.rs:50-68 | No entry of the list is without a client, and its client is the first that was found with a service of its key |
| Origins.OriginCanBeWrong | mux-agent/src/wizard/services.rs:105-112 | Two services of two clients that differ in their arguments and have one key, so that both are shown under the first client |
| Origins.KeyExample | mux-agent/src/wizard/services.rs:105-128 | What the key of a service looks like |
| Rewrite.CollectServers | mux-agent/src/scan.rs:471-489 | The list holds exactly the services that entries of the table describe, each under the name of its entry and once |
| Entries.ParsesIff | mux-agent/src/scan.rs:471-489 | A service is read from an entry if and only if the entry says its command, arguments, directory, socket, environment and flag, under these keys or in this order |
| Rewrite.ScansUnderItsKey | mux-agent/src/scan.rs:425-465 | With a fixed key exactly what entries under `mcpServers`, or under `servers`, describe is found, and the key has to be there |
| Rewrite.ScansEitherKey | mux-agent/src/scan.rs:429-440 | Without one `mcpServers` comes first, and `servers` counts when nothing is found there |
| Rewrite.ScansToml | mux-agent/src/scan.rs:492-523 | In a TOML file exactly what entries under `mcp_servers` describe is found |
| Rewrite.RewrittenEntrySays | mux-agent/src/danger.rs:527-562 | A rewritten entry says the proxy's command, its arguments and the service's socket, the service's environment and nothing else |
| Rewrite.FixedKeyRescan | mux-agent/src/danger.rs:493-506 | With a fixed key the rewrite and the next scan use that key |
| Rewrite.RewriteJson | mux-agent/src/danger.rs:477-568 | The loops compute the rewrite under the chosen key, or fail on a value that is not an object |
| Rewrite.RewriteToml | mux-agent/src/danger.rs:570-645 | The same under `mcp_servers` |
| Rewrite.RewriteIsSurgical | mux-agent/src/danger.rs:508-565 | Other top-level keys and unselected entries keep their values, selected ones run the proxy, and nothing else appears or disappears |
| Rewrite.RescanAfterRewrite | mux-agent/src/danger.rs:514-565 | Scanning the rewritten file under the same key gives the old scan with the selected services redirected and their environment kept |
| Rewrite.TomlRescanAfterRewrite | mux-agent/src/scan.rs:492-523 | The same for TOML, where the scan also still succeeds |
| Rewrite.RescanSelectsAgain | mux-agent/src/scan.rs:471-489 | A scan of the rewritten file, cut down to the names selected before, is a selection that the next property speaks of |
| Rewrite.SecondRewriteIsNoOpIff | mux-agent/src/danger.rs:527-562 | A second rewrite changes nothing exactly when every selected service was reached through the default socket |
| Rewrite.SecondRewriteCanChange | mux-agent/src/danger.rs:527-562 | A service with a socket of its own, which the second rewrite redirects elsewhere |
| Rewrite.AutoRescanIff | mux-agent/src/danger.rs:493-506 | When no key is fixed, a scan after a rewrite gives the redirected scan exactly when `mcpServers` is absent or holds a server, or everything was selected |
| Rewrite.AutoRescanCanFail | mux-agent/src/danger.rs:493-506 | A file with an empty `mcpServers` and two entries under `servers`, one of which the scan after the rewrite no longer finds |
| Rollback.Disk.WriteWithBackup | mux-agent/src/danger.rs:427-457 | The backup goes to the first free of a thousand places, or nothing is written |
| Rollback.Disk.ExecutePlan | mux-agent/src/danger.rs:361-401 | Refuses without confirmation and otherwise carries out the actions in order |
| Rollback.ExecutionIsContained | mux-agent/src/danger.rs:427-457 | Only targets change among the files that existed, and no backup goes where a file was |
| Rollback.BackupsAreKept | mux-agent/src/danger.rs:427-457 | Two actions of a plan share a backup place only when the first one's target did not exist, so that no backup overwrites another |
| Backups.SharesBackupIff | mux-agent/src/danger.rs:427-472 | Two actions share a backup place if and only if both found one, in one directory with the same name and second, and the first one's place was still empty when the second looked |
| Rollback.BackupsDiffer | mux-agent/src/danger.rs:427-457 | When all targets exist, no two actions are given the same backup place |
| Rollback.BackupCanBeNamedTwice | mux-agent/src/danger.rs:450-456 | A plan that creates one file twice within a second is given one place twice |
| Rollback.ReverseRollbackRestores | mux-agent/src/danger.rs:405-414 | Running the copies in reverse order restores every file that existed, for any plan; a written file is as before exactly when it existed |
| Rollback.AnyOrderRestores | mux-agent/src/danger.rs:405-414 | When targets exist and differ, the copies restore everything in any order |
| Rollback.PrintedOrderRestoresIff | mux-agent/src/danger.rs:405-414 | In the printed order a file is restored exactly when the plan wrote it at most once or its last write but one put the first contents back |
| Rollback.PrintedOrderLeaves | mux-agent/src/danger.rs:405-414 | In the printed order a file is left with what its last write but one put there |
| Rollback.PrintedOrderCanFail | mux-agent/src/danger.rs:405-414 | Two writes to one file that the printed order leaves half undone |
| Launch.KdlRoundTrip | tui-agent/src/launch.rs:404-410 | Every string survives KDL quoting, whatever follows it |
| Launch.ThreePassesAreOne | tui-agent/src/launch.rs:404-410 | The three replacements in sequence escape each character once |
| Launch.ShellRoundTrip | tui-agent/src/launch.rs:374-386 | Splitting the joined words gives exactly the words, if and only if none holds a NUL |
| Launch.LaunchRoundTrip | tui-agent/src/launch.rs:321-360 | Undoing the KDL quoting gives the pane's command back, whatever follows in the layout, and the shell reads its last part as `exec` with exactly the program and arguments, if and only if they are free of NULs |
| Launch.ExportRoundTrip | tui-agent/src/launch.rs:347-353 | The shell reads every export as one assignment word, the cleaned name, `=` and exactly the value |
| Pane.PaneRunsItsCommands | tui-agent/src/launch.rs:338-360 | Whatever the values hold, the shell divides the pane's command into exactly the exports, the three tool snippets and the `exec`, in this order; it divides it at all if and only if no value holds a NUL |
| Pane.CommandsAreRead | tui-agent/src/launch.rs:338-360 | Each export is read as one assignment word with exactly its value, and the last command as `exec` with exactly the program and arguments |
| Environment.EnvironmentArrivesIff | tui-agent/src/launch.rs:347-353 | The pane's command gives every value to the variable of its cleaned name if and only if all cleaned names are identifiers and keys with the same one have the same value; the variables it sets are the given ones if and only if all keys are identifiers |
| Environment.EnvironmentCanFail | tui-agent/src/launch.rs:388-392 | The keys `1A`, and `A-B` beside `AB` |
| Deck.BuildDeckArgs | tui-agent/src/launch.rs:245-284 | The argument list can be read back as the kind, agent, prompt (unless blank), runtime, root and counts that were asked for |
| Deck.DeckRoundTrip | tui-agent/src/launch.rs:245-284 | Reading the arguments back gives the request, even if agent, prompt or root look like options |
| Deck.SameArgsIff | tui-agent/src/launch.rs:245-284 | Two requests have the same argument list exactly when they ask the deck for the same |
| Deck.ShellRunsTheRequest | tui-agent/src/launch.rs:338-386 | What the shell executes names the deck and determines the request |
| Board.CompareRunsIsTotalOrder | tui-agent/src/state.rs:218-242 | The comparison is total, transitive and antisymmetric up to the run id |
| Board.BoardIsCanonical | tui-agent/src/state.rs:153-174 | With one run per id every loading order and every sorting method give the same sequence |
| Board.RenderRuns | tui-agent/src/state.rs:153-174 | The board is a sorted permutation of the runs |
| Board.OldestFirst | tui-agent/src/state.rs:222-242 | Within a kind no run is listed before one that was updated earlier or has no timestamp |
| Board.KindsInOrder | tui-agent/src/state.rs:73-83 | The board lists active runs first, then stalled, failed, paused, recent, completed and unknown ones |
| Board.TiesAreBroken | tui-agent/src/state.rs:218-242 | Runs updated at the same time are listed by start, last heartbeat and id |
| Board.NewestFirstIff | tui-agent/src/state.rs:222-242 | Two runs of a kind are in newest-first order only when their update times agree |
| Board.NewestComesLast | tui-agent/src/state.rs:153-174 | Three runs listed with the undated one first and the latest last |

## Left out

- Forwarding.BufferingRefinesForwarding: speaks of registered clients; requests of a client that has gone are accounted for by the ledger only.
- Generations.ResponsesComeFromTheCurrentChild: assumes honest children and plain handshake notifications; `Counterexamples.LateRepliesAreHarmlessIff` shows that both are needed.
- Timing.BoundedWaitingAndMemory: the largest pause between two reaper ticks is given, because it is the scheduler's and not the code's.
- Tasks.Daemon.HandleClientMessage: other tasks come in only where it waits for room in the queue (`Tasks.Daemon.Resume`); that they may come in between any two steps is covered by the step machine. The size of a message compared with the limit is a parameter.
- Responses.ResponseReachesItsAsker: about a turn of the router that nothing interrupts; what holds when other tasks come in between is `Provenance.RepliesAreChildAnswers` with the ledger and isolation.
- Supervision.ServerManager: what each wait ends with is given as a list, and messages that arrive while it runs are queued from the start; sleeping is recorded and not timed, and a Rust `Duration` that overflows when doubled is not modelled.
- Environment.EnvironmentArrivesIff: of the commands only the exports set variables; what the tools' own set-up does is not followed, and a name that `export` refuses is skipped, as bash does.
- Heartbeat.HeartbeatState.RecordSuccess: counters are unbounded, where the source has 64-bit and 32-bit ones.
- Pane.PaneRunsItsCommands: the readers give nothing for expansions, operators, comments and escapes that the quoting never produces; the tools' snippets are divided into commands and not interpreted. Paths are strings, so the replacement of bytes that are not UTF-8 is not modelled.
- Rewrite.AutoRescanIff: is about the schema without a fixed key; a JSON file declared with the TOML schema is scanned like it and rewritten under `mcpServers`.
- Wizard.BuildServices: running processes, which the wizard adds to the list afterwards, are not modelled.
- Board.RenderRuns: the kind of a run and its parsed timestamps are given; classification by words in its state, age labels and recent events are not modelled.
- Requests whose id comes with `notifications/initialized` are handshake notifications and are never answered; the ledger does not count them.
- A decode error ends a reader without its unregister block, so that client's entries may stay until its writer closes; the machine has this as a step of its own.
- A writer is the list of messages put on its channel and an unregister step at any time; delivery over the socket is not modelled.
- Liveness: nothing says that a task is scheduled, that a queue drains or that the manager ends.
- Whether an old child process dies: the manager detaches it, and the model only says which child is attached to the queue.
- Whether a heartbeat probe can succeed: the inspector's wait and the handling of the reply are not modelled, only its bookkeeping.
- Status snapshots, queue depth, the control socket, subscribers and events: observers that do not affect routing.
- Sockets, codecs, process spawning, signals, and the text of JSON and TOML: messages and files are values.
- Path resolution, permissions and I/O errors: the file system is a map that never fails.
- The fixed limits written into every generated daemon entry (clients, timeouts, backoff, heartbeat): constants.
- Agreement of per-client files with the daemon's sockets when kinds conflict: the two merges name services differently.
- The quoting of paths in the printed rollback commands, the previews and change lines: text for people.
- Command line, wizard keys and tabs, tray, drawing, the Swift application and its bindings: user interface.
