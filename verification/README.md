# RemoteDeck verification model

A Dafny model of the parts of RemoteDeck where state, concurrency and encodings meet, with proofs
of what those parts promise. RemoteDeck keeps SSH host profiles, tunnels and command presets in a
JSON file, runs terminals and background commands for them, and serves a browser client that follows
along over an event stream and one socket per terminal.

`dafny verify dfyconfig.toml` checks the whole project.

## How it is built

Where the program changes an object under a lock, the model has a class with the same fields and one
method per critical section; each method's contract equates the new state with a function of the old
one. The same functions are the steps of a state machine, and the theorems are about every finite
interleaving of those steps. What the functions of the main operations mean is proved
beside them in terms of their arguments alone: exactly when an operation succeeds, what it leaves,
field by field, and that nothing else changes.

| area | files |
|---|---|
| PTY byte pipeline: ConPTY cursor query, incremental UTF-8 decoder | Utf8Stream, PtyReader |
| terminal replay log, live broadcast and socket; input leases | Retention, TerminalReplay, TerminalDelivery, InputLease |
| terminal slots raced by spawner, closer, reader and waiter | Pruning, TerminalSlots, TerminalRegistry, SessionSnapshots, TerminalRuns, TerminalRetirement, TerminalRetirementRuns |
| repository: drafts, ProxyJump graph, imports, two-phase deletion | Strings, Profiles, ProxyJump, HostImport, HostRecords, Repository, RepositorySteps, RepositoryRuns, AliasRuns, AppRepository; what each operation means: AcceptedDrafts, SavedRecords, Jumps, RepositoryOutcomes, BatchOutcomes |
| the state file: atomic replacement, backup, recovery | StateFile, StateRecovery |
| global event stream | EventStream, EventReplay |
| host retirement barrier and the deletion of a host | HostOperations, HostRequests, HostDeletion, DeletionOutcomes, DeletionRuns, DeletionTables |
| command jobs and their captured output | CommandJobs, CommandJobRegistry, JobSnapshots, JobRetirement, JobRetirementRuns, CommandOutput |
| idempotent requests, admission, operation history | RequestAdmission, RequestHistory, OperationLog |
| base64, SSH strings, Ed25519 keys | PublicKeys |
| shell quoting and command risk | ShellQuote, CommandRisk, RiskOfJoined, ProgramRisk |
| merging snapshots in the browser | BrowserMerge, BrowserRetention |
| shared: small types, folds over lists, paths of steps | Prelude, Paths |

What the outside world decides is a parameter of a step: drawn ids (assumed new, and of the textual
form of a UUID), clock readings, the outcome of a disk write, of a process launch or of a wait.
`steps` is always an arbitrary finite sequence. A timeout is a step that may happen at any time.

## Where the code differs from what one would expect

- A canonical padded base64 text is refused: the comment at crates/remotedeck-core/src/keys.rs:454-455
  lists `xx==` and `xxx=` as valid, the match above it does not let them through. The accepted set is
  exactly the unpadded canonical one (`PublicKeys.DecodeBase64`).
- A log emptied by one event over 8 MiB is taken for "nothing missed", so a client behind it gets a
  gap without a resync (`EventStream.StartIsHonest`, `EventStream.OversizedEventHidesGap`).
- A resync that is published between the subscription of a client and its start is sent twice, and the
  events behind it come a second time (`EventReplay.DeliversOnce`).
- An attachment whose `since` is beyond the last event starts behind the last event, not behind
  `since` (`TerminalReplay.NothingWantedMissing`).
- An alias may be spelled like the id of another host. Then a marked deletion can be refused although
  nothing refers to the host (`AliasRuns.AliasTrap`), and a rename can send a host that jumps elsewhere
  through the renamed one (`AliasRuns.RenameTrap`). `RepositoryRuns.FinishDeletionOutcome` and
  `AliasRuns.UpdateLeavesJumps` say exactly when.
- Two deletions of one host at once are kept apart only by the mark; the one that comes late opens the
  host under the other, or leaves a deleted host open (`DeletionRuns.SecondReopensUnderFirst`,
  `DeletionRuns.SecondFailsWithHostGone`). `HostDeletion.EveryRun` says what each of them can rely on.
- For the same reason a retirement of the command jobs may go through although another deletion has restored
  the host meanwhile: jobs can then be registered again at once, and a job registered since the last look may be
  purged unfinished, which then never gets an end (`JobRetirement.AfterPurge`, `JobRetirement.PurgesUnfinished`,
  with the runs in JobRetirementRuns). `DeletionTables.DeletionEmptiesTables` says what a deletion can rely on.
- A retirement of the terminals that goes through may leave the record of a session whose exit was recorded
  while it was being closed (`TerminalRetirementRuns.RecordStays`); without a restore it never leaves a slot.
- The directory sync may fail after the new state file is in place; memory then keeps the old state
  while the disk holds the new one (`StateFile.FailureLeaves`).
- When captured output is cut inside a character, up to three bytes of the next chunk may be spliced
  in; `CommandOutput.CutIsPrefix` says exactly when that makes the content no prefix.
- An outcome already sent to a waiting request may be replaced once, by the shutdown or by the answer of
  a task that the shutdown has aborted (`RequestAdmission.OutcomeReplaced`).
- The generation of a session may go down when two reconnects overlap; its revision still goes up, but
  the browser orders by generation first (`TerminalRuns.OverlappingReconnects`,
  `BrowserMerge.LastRecordedShown`).
- A command of blanks and separators only is L1 alone and mostly adds nothing when joined, but a pipe in
  it can make the joined command L2 (`RiskOfJoined.JoinLowersExactly`).
- The limit of 64 input leases is never met, because activating one revokes all older ones
  (`InputLease.AttachSucceeds`).

## Model

| member | source | states |
|---|---|---|
| Utf8Stream.ScanCharMeetsGrammar | crates/remotedeck-core/src/session.rs:1666-1697 | the byte-wise validator agrees with the grammar of section 4 of RFC 3629 on every input: a character is a well-formed prefix, an invalid part is a maximal ill-formed part, and "incomplete" means exactly that some character extends the input |
| Utf8Stream.LossyIsTheDecoding | crates/remotedeck-core/src/session.rs:1665-1703 | for every byte string there is exactly one lossy decoding (well-formed characters kept, one U+FFFD per maximal ill-formed part), and `Lossy` computes it |
| Utf8Stream.DrainSplit | crates/remotedeck-core/src/session.rs:1664-1697 | decoding a stream in two reads gives the same text and the same held-back tail as decoding it in one |
| Utf8Stream.DrainThenFlush | crates/remotedeck-core/src/session.rs:1665-1703 | what was decoded plus the flush of the tail is the lossy decoding; the tail is empty or an unfinished character of at most 3 bytes |
| Utf8Stream.Utf8StreamDecoder.Push | crates/remotedeck-core/src/session.rs:1665-1697 | the loop terminates, emits exactly what `pending` plus the new bytes decide, never an empty text, and leaves only an unfinished character pending |
| Utf8Stream.Utf8StreamDecoder.Finish | crates/remotedeck-core/src/session.rs:1699-1703 | a pending tail becomes one U+FFFD, and nothing stays pending |
| PtyReader.InitialConPtyCursorHandshake.Consume | crates/remotedeck-core/src/session.rs:1606-1646 | swallows bytes only while all input is a proper prefix of `ESC[6n`, asks for the answer exactly when the query completes, and otherwise gives back every swallowed byte |
| PtyReader.InitialConPtyCursorHandshake.Finish | crates/remotedeck-core/src/session.rs:1648-1656 | a partial query is handed back and the matcher is off for good |
| PtyReader.ShimStep | crates/remotedeck-core/src/session.rs:1606-1646 | over any sequence of reads the shim has passed on the stream without one leading query, and has asked for at most one answer |
| PtyReader.Emit | crates/remotedeck-core/src/session.rs:896-915 | emits all texts of a piece, or only its first ones when the generation is found stale on the way |
| PtyReader.Publish | crates/remotedeck-core/src/session.rs:896-915 | a piece of shim output extends the published text by what it decodes, or by the start of that when the generation is found stale |
| PtyReader.Take | crates/remotedeck-core/src/session.rs:872-915 | one read: a query is answered, or stops the reader if it cannot be; then the rest of the piece is published |
| PtyReader.Conclude | crates/remotedeck-core/src/session.rs:934-977 | after the flush the published texts are together the lossy decoding of everything passed while the generation is current, and the start of it otherwise |
| PtyReader.ReadAll | crates/remotedeck-core/src/session.rs:864-977 | for every stream, every way of cutting it into reads, and any moment at which the generation turns stale: what is published is the start of the lossy UTF-8 decoding of the stream without one leading `ESC[6n`, and all of it while the generation stays current; the query is answered exactly once if it was there and never otherwise, and nothing is published behind one that cannot be answered; every text takes a check of the generation, and nothing is held back while checks are left |
| Retention.KeepsNothing | apps/server/src/transport.rs:84-88 | a log trimmed from the front keeps nothing exactly when nothing was added or the last entry alone is over the weight limit |
| TerminalReplay.TerminalEventStream.Publish | crates/remotedeck-core/src/session.rs:276-299 | the log keeps the longest recent stretch of all events within 1 MiB, the byte counter is the sum over what it keeps, and the last dropped sequence is remembered |
| TerminalReplay.TerminalEventStream.Evict | crates/remotedeck-core/src/session.rs:287-296 | eviction stops at the first stretch that fits; the counter never goes wrong and never needs the empty-log branch |
| TerminalReplay.TerminalEventStream.RetainedAfter | crates/remotedeck-core/src/session.rs:334-339 | exactly the retained events behind the given sequence, in order |
| TerminalReplay.TerminalEventStream.Attach | crates/remotedeck-core/src/session.rs:301-341 | the truncation marker if due, then the retained events from the start on, and a receiver that begins right behind them |
| TerminalReplay.MarkerIffWantedDropped | crates/remotedeck-core/src/session.rs:311-331 | the marker is sent if and only if an event the client still wanted was evicted |
| TerminalReplay.TerminalSocket.SendReplay | apps/server/src/transport.rs:487-499 | sends the whole replay in order and ends at its last sequence |
| TerminalReplay.TerminalSocket.Receive | apps/server/src/transport.rs:520-530 | delivers a live event unless its sequence was already sent, and ends on a lag |
| TerminalReplay.ReplayJoinsLive | apps/server/src/transport.rs:487-531 | for every interleaving of publishing with the socket: what was sent is a prefix of marker plus events from the start on, each once and without a hole, and after the replay it is all of them up to the receiver |
| TerminalDelivery.KeepsExactly | crates/remotedeck-core/src/session.rs:276-299 | the log holds at most 1048576 bytes of output, and no event is dropped that would still fit |
| TerminalDelivery.DueMeans | crates/remotedeck-core/src/session.rs:301-341 | event by event: an attachment behind a dropped event is due the marker and then every event that is left, any other attachment every event behind its position, each once and in order |
| TerminalDelivery.TurnMeans | apps/server/src/transport.rs:487-531 | every turn of the socket sends the next frame that is due, if there is one; it ends if and only if the replay is through and more than 512 events wait |
| TerminalDelivery.CatchesUp | apps/server/src/transport.rs:487-531 | in every interleaving, a socket with at most 512 events waiting has sent all that is due, and nothing else, after as many turns as frames are left |
| InputLease.TerminalInputState.IssueLease | crates/remotedeck-core/src/session.rs:171-183 | issues the first number behind the last that is not issued; refuses at the limit |
| InputLease.TerminalInputState.Activate | crates/remotedeck-core/src/session.rs:203-212 | only an issued lease is activated, and every older one is revoked with it |
| InputLease.TerminalInputState.ResumeLease | crates/remotedeck-core/src/session.rs:191-198 | renews only for the holder of the last lease ever issued |
| InputLease.TerminalInputState.Write | crates/remotedeck-core/src/session.rs:214-228 | bytes reach the PTY only under the active, still issued lease and within the chunk limit: all of them on success, a prefix when the write fails |
| InputLease.AttachSucceeds | crates/remotedeck-core/src/session.rs:512-524 | in every reachable state attaching succeeds: at most one lease is ever issued, so the limit of 64 is never met |
| InputLease.LostForGood | crates/remotedeck-core/src/session.rs:200-212 | a superseded or released lease never owns the input again, in any continuation |
| InputLease.InputInLeaseOrder | crates/remotedeck-core/src/session.rs:214-228 | in every run no input of an older attachment follows input of a newer one |
| InputLease.HolderWrites | crates/remotedeck-core/src/session.rs:214-228 | in every run a write reaches the PTY, all of it or what went before a failure, if and only if it is of at most 65536 bytes and under the last lease handed out, not released since |
| InputLease.LeasesInTurn | crates/remotedeck-core/src/session.rs:171-212 | in every run attaching is granted the next number, and resuming is to the holder of the last lease and to nobody else |
| TerminalRegistries.TerminalRegistry.TakeGeneration | crates/remotedeck-core/src/session.rs:688-691 | a number never handed out before |
| TerminalRegistries.TerminalRegistry.ReserveNew | crates/remotedeck-core/src/session.rs:687-700 | reserves a slot for a new id, or changes nothing |
| TerminalRegistries.TerminalRegistry.ReserveReconnect | crates/remotedeck-core/src/session.rs:702-729 | reserves a slot for a recorded, inactive session of the same host, and hands out its last snapshot |
| TerminalRegistries.TerminalRegistry.RegisterSpawnCleanup | crates/remotedeck-core/src/session.rs:1104-1125 | registers the child with its own starting slot only, and says whether a close came first |
| TerminalRegistries.TerminalRegistry.CommitRunning | crates/remotedeck-core/src/session.rs:1127-1158 | only the starting slot of this generation that nobody closed becomes running; its snapshot is recorded and the oldest idle records are pruned |
| TerminalRegistries.TerminalRegistry.ReleaseReservation | crates/remotedeck-core/src/session.rs:1160-1174 | gives up its own starting slot, and the snapshot too when a close was requested |
| TerminalRegistries.TerminalRegistry.FinishAbort | crates/remotedeck-core/src/session.rs:1192-1207 | removes its own slot only |
| TerminalRegistries.TerminalRegistry.BeginClose | crates/remotedeck-core/src/session.rs:620-643 | marks a starting slot, or removes the record of an inactive session, and names the generation to end |
| TerminalRegistries.TerminalRegistry.EndClose | crates/remotedeck-core/src/session.rs:650-660 | removes slot and snapshot only if the generation is still the one that was closed |
| TerminalRegistries.TerminalRegistry.FinalizeExit | crates/remotedeck-core/src/session.rs:1469-1512 | an exit takes effect only for the running slot of its generation; the snapshot gets a new revision if it changed |
| TerminalRegistries.TerminalRegistry.RecordTerminalError | crates/remotedeck-core/src/session.rs:1536-1566 | an error takes effect only for the running slot of its generation, once per message |
| TerminalRegistries.TerminalRegistry.StopAll | crates/remotedeck-core/src/session.rs:1275-1300 | empties both tables |
| TerminalSlots.EveryRun | crates/remotedeck-core/src/session.rs:1104-1207 | in every run of spawners, closers, readers and waiters: generations are unique, every running slot has a snapshot of its own generation, a generation closed while starting is not running, recorded revisions of a session strictly increase, at most 32 slots and 256 snapshots |
| TerminalSlots.ClosedNeverRuns | crates/remotedeck-core/src/session.rs:620-643 | a generation closed while starting never runs in any continuation |
| TerminalSlots.StaleDoesNothing | crates/remotedeck-core/src/session.rs:1469-1566 | exit, error, commit, release, abort or close of a generation without a slot changes nothing |
| TerminalSlots.GenerationsAreFresh | crates/remotedeck-core/src/session.rs:688-691 | a taken generation differs from every one carried by a slot, a spawn or a record |
| TerminalSlots.PruneRecordsKeeps | crates/remotedeck-core/src/session.rs:1339-1352 | pruning leaves at most 256 records and never removes that of an active session |
| TerminalSlots.CommitPrunesOldestIdle | crates/remotedeck-core/src/session.rs:1127-1158 | what a commit prunes had no slot and is no newer than any idle record it keeps |
| SessionSnapshots.ReserveNewMeans | crates/remotedeck-core/src/session.rs:687-700 | a slot is taken if and only if the id is unknown and fewer than 32 sessions are active |
| SessionSnapshots.ReserveReconnectMeans | crates/remotedeck-core/src/session.rs:702-729 | a reconnect takes a slot if and only if the session has a record of that host and no slot, and fewer than 32 are active |
| SessionSnapshots.CommitMeans | crates/remotedeck-core/src/session.rs:1127-1158 | a start becomes a running session with its snapshot on record if and only if it finds its slot and no request to close; other records stay as they are, those without a slot go only as long as there are more than 256 |
| SessionSnapshots.BeginCloseMeans | crates/remotedeck-core/src/session.rs:620-643 | closing removes the record of a session without a slot, marks one that starts, changes nothing yet of one that runs, and says whether there is a child to end |
| SessionSnapshots.ExitMeans | crates/remotedeck-core/src/session.rs:1469-1512 | an exit of the running generation is recorded and emitted as closed if the code is 0 and offline otherwise, with that code and signal, all else as before, and the slot is gone; of any other generation nothing happens |
| SessionSnapshots.ErrorMeans | crates/remotedeck-core/src/session.rs:1536-1566 | an error of a running session is recorded as failed with that message, once for each message, and the slot stays |
| SessionSnapshots.ExitRecords | crates/remotedeck-core/src/session.rs:1469-1512 | in every run the exit of a running generation is recorded as the next snapshot, with the next revision, of the session it was started for |
| SessionSnapshots.ExitIsTheLastWord | crates/remotedeck-core/src/session.rs:1469-1566 | in every run nothing is recorded of a generation behind its exit, whatever follows |
| TerminalRetirement.RetiredHostHasNoSlots | crates/remotedeck-core/src/session.rs:1209-1272 | in every run of starts, closers, exits and any number of retirements: a retirement that has gone through, its host not restored since, has left no slot of the host and no start under way for it; a record is left only of a session whose exit was recorded while this retirement was ending it |
| TerminalRetirement.NoSlotsUntilRestored | crates/remotedeck-core/src/session.rs:1209-1238 | whatever else happens, the host gets no slot and no new record until it is restored |
| TerminalRetirementRuns.RecordStays | crates/remotedeck-core/src/session.rs:612-660 | a run in which a retirement goes through and the record of a session stays, because its exit was recorded between the two sections of its close |
| TerminalRuns.OverlappingReconnects | crates/remotedeck-core/src/session.rs:687-729 | a run from the empty registry in which two overlapping reconnects do this |
| TerminalRegistries.RecordsDistinct | crates/remotedeck-core/src/session.rs:1339-1352 | in every reachable registry the records carry different generations, so the oldest one is unique |
| EventStream.EventHub.Publish | apps/server/src/transport.rs:64-90 | numbers the event, keeps terminal bytes out, and keeps the longest recent stretch within 512 entries and 8 MiB |
| EventStream.EventHub.Evict | apps/server/src/transport.rs:84-88 | eviction stops at the first stretch that fits both limits |
| EventStream.EventHub.Initial | apps/server/src/transport.rs:94-114 | every event behind `since`, once and in order, if the log still has them all; one resync exactly without a position, beyond the last event, or behind a dropped event of a log that is not empty |
| EventStream.EventConnection.Receive | apps/server/src/transport.rs:340-379 | one turn of the response stream: pending item, live message, or a lag |
| EventStream.EventConnection.Filter | apps/server/src/transport.rs:371-383 | an already delivered sequence is dropped, unless it is a resync |
| EventStream.EventConnection.AnswerLag | apps/server/src/transport.rs:356-360 | a lag is answered by a resync at the current sequence |
| EventStream.StartIsHonest | apps/server/src/transport.rs:94-114 | a start misses nothing unannounced, except exactly when the client is behind and the last event alone exceeds 8 MiB |
| EventStream.NoHiddenGap | apps/server/src/transport.rs:330-391 | for every interleaving with honest starts: every ordinary line follows directly on the line before it or on `since`, so no gap goes without a resync, and a connection that has taken everything stands at the latest event |
| EventStream.SmallEventsStartHonestly | apps/server/src/transport.rs:64-114 | events of at most 8 MiB make every start of every run honest |
| EventStream.SegmentIsContiguous | apps/server/src/transport.rs:371-383 | between two resyncs the lines are numbered without a hole, each the event published under its number |
| EventStream.OversizedEventHidesGap | apps/server/src/transport.rs:97-101 | behind an oversized event a client is sent the next event as if nothing lay between |
| EventReplay.DroppedExactly | apps/server/src/transport.rs:64-90 | the log holds at most 512 events and 8388608 bytes, and no event is dropped that would still fit |
| EventReplay.StartAnswers | apps/server/src/transport.rs:94-114 | a start is answered with exactly the events behind `since`, each once and in order, if the log still has them all; with one resync if and only if there is no position, or one beyond the last event, or a wanted event was dropped from a log that is not empty |
| EventReplay.DeliversOnce | apps/server/src/transport.rs:330-391 | in every interleaving a client that keeps up has been sent exactly the events behind `since` up to where it stands, once and in order, if no event named resync was published between its subscription and its start; once it has taken everything, if and only if |
| EventReplay.CatchesUp | apps/server/src/transport.rs:330-391 | such a client has every event after as many turns as items and messages are waiting |
| Profiles.HostFromDraftValid | crates/remotedeck-core/src/store.rs:592-670 | a host made from an accepted draft passes the check of stored hosts: trimming and defaulting lose nothing that check looks at |
| Profiles.TunnelFromDraftValid | crates/remotedeck-core/src/store.rs:833-884 | the same for tunnels |
| Profiles.CommandFromDraftValid | crates/remotedeck-core/src/store.rs:886-951 | the same for command presets |
| AcceptedDrafts.HostDraftMeans | crates/remotedeck-core/src/store.rs:1076-1131 | a host draft is accepted if and only if every text is within its length and characters and every number within its bounds, each spelled out |
| AcceptedDrafts.TunnelDraftMeans | crates/remotedeck-core/src/store.rs:1152-1200 | the same for a tunnel draft |
| AcceptedDrafts.CommandDraftMeans | crates/remotedeck-core/src/store.rs:1237-1277 | the same for a preset draft |
| SavedRecords.MadeHost | crates/remotedeck-core/src/store.rs:592-670 | a draft makes a host if and only if its options end up within bounds and key authentication has a key file; every field is the one of the draft, of the replaced record, or the default, as listed |
| SavedRecords.GroupsAreUsable | crates/remotedeck-core/src/store.rs:1217-1231 | the groups of a host are those of its draft, trimmed: every usable one in some case, none twice, nothing else |
| SavedRecords.MadeTunnel | crates/remotedeck-core/src/store.rs:833-884 | every field of a saved tunnel, the source port from the source port and the target port from the target port |
| SavedRecords.MadeCommand | crates/remotedeck-core/src/store.rs:886-951 | every field of a saved preset |
| SavedRecords.HostSavedAgain | crates/remotedeck-core/src/store.rs:592-670 | saving a host as it was saved changes nothing but its time |
| ProxyJump.IdResolves | crates/remotedeck-core/src/store.rs:763-796 | a stored id always resolves to the host that carries it |
| ProxyJump.ResolveRespelled | crates/remotedeck-core/src/store.rs:763-796 | resolution does not depend on how jumps are spelled |
| ProxyJump.NormalizeEffect | crates/remotedeck-core/src/store.rs:689-723 | normalising one host changes only how its jump is spelled, and leaves it jumping to an existing, different, direct host |
| ProxyJump.RoleClosesDepth | crates/remotedeck-core/src/store.rs:725-743 | after one edit that left everything but the edited host in order, the role check is what makes the whole graph depth one |
| ProxyJump.UpdateHostKeeps | crates/remotedeck-core/src/store.rs:560-590 | every successful create, edit or rename takes a list with unique ids and aliases, valid hosts and depth-one jumps to such a list, with all old ids in place |
| Jumps.EndpointIsNamed | crates/remotedeck-core/src/store.rs:798-822 | a text is an endpoint of a host if and only if it reads `user@host:port` of it, or `user@host` if the port is 22, with an address that holds a colon in brackets |
| Jumps.ReferenceMeans | crates/remotedeck-core/src/store.rs:763-796 | a reference leads to the host with that id; failing that, to the one whose alias equals it but for case; failing that, to the only one whose endpoint it is; and is refused if and only if there is none |
| Jumps.SettleMeans | crates/remotedeck-core/src/store.rs:689-723 | a jump is settled if and only if it leads to another, direct host and nobody jumps through the host itself; it becomes the id of that very host |
| Jumps.SaveMeansJump | crates/remotedeck-core/src/store.rs:560-590 | a save is refused for its jump if and only if the reference leads to no host, to the host itself or to one that jumps, or somebody jumps through it; otherwise exactly the id of the host it leads to is stored |
| Jumps.ImportMeansJumps | crates/remotedeck-core/src/store.rs:209-250 | the same for all hosts of an import at once: it goes through if and only if every jump leads to a host of the whole list and nobody jumps through a host that jumps |
| HostImport.ImportHostsKeeps | crates/remotedeck-core/src/store.rs:209-250 | the same for a batch of hosts, even when a jump names a host later in the batch; the old hosts stay as they were |
| HostImport.NormalizeAllIsAtOnce | crates/remotedeck-core/src/store.rs:229-231 | settling the jumps one after the other is settling all of them at once, and fails exactly when one of them cannot be settled |
| HostImport.ImportOrderIrrelevant | crates/remotedeck-core/src/store.rs:500-507 | the result of an import does not depend on the order in which the hash map of new ids is visited |
| HostRecords.ApplyTunnelKeeps | crates/remotedeck-core/src/store.rs:833-884 | saving a tunnel keeps ids and scoped names unique, all tunnels valid and attached, and adds nothing for another host |
| HostRecords.ApplyCommandKeeps | crates/remotedeck-core/src/store.rs:886-951 | the same for command presets |
| HostRecords.RecordsFollowHosts | crates/remotedeck-core/src/store.rs:1383-1470 | records stay attached as long as no host id disappears |
| Repository.AdmitHostsKeeps | crates/remotedeck-core/src/store.rs:485-499 | every source id of a batch is mapped to the host made from it |
| Repository.ImportBatchHostsKeeps | crates/remotedeck-core/src/store.rs:485-507 | the hosts of a batch end up settled at depth one |
| Repository.ImportNewBatchKeeps | crates/remotedeck-core/src/store.rs:440-547 | a batch that is built adds exactly its hosts, tunnels and presets behind the old ones, each child at its mapped host, and the state stays sound |
| BatchOutcomes.ImportListOutcome | crates/remotedeck-core/src/store.rs:209-250 | importing hosts succeeds if and only if no deletion is under way, every draft goes into the list, every jump leads somewhere and the write succeeds; then exactly those hosts are added, field by field |
| BatchOutcomes.ImportBatchOutcome | crates/remotedeck-core/src/store.rs:440-547 | a batch succeeds if and only if its hash is well-formed, no deletion is under way, and it is known already or admissible as a whole and can be written; then exactly its records are added, each attached where its source id says |
| AppRepositories.ApplyHostUpdate | crates/remotedeck-core/src/store.rs:560-590 | the in-place update computes `UpdateHost`, dependents rewritten one by one |
| AppRepositories.RewriteDependents | crates/remotedeck-core/src/store.rs:572-580 | the loop rewrites exactly the jumps spelled with the old alias, ignoring case |
| AppRepositories.ForEach | crates/remotedeck-core/src/store.rs:485-538 | each import loop stops at the first failure and otherwise yields the fold over all elements |
| AppRepositories.ValidateRoles | crates/remotedeck-core/src/store.rs:232-234 | the first role complaint in order, if any |
| AppRepositories.SettleHosts | crates/remotedeck-core/src/store.rs:229-234 | all jumps settled, then all roles checked |
| AppRepositories.BuildBatch | crates/remotedeck-core/src/store.rs:473-541 | the phases of a batch import, in order, up to the state to be written |
| AppRepositories.AppRepository.Persist | crates/remotedeck-core/src/store.rs:1233-1235 | the changed copy is validated, written and only then swapped in; any failure leaves memory unchanged |
| AppRepositories.AppRepository.SaveHost | crates/remotedeck-core/src/store.rs:158-183 | refuses an edit of a host being deleted and a jump through one; otherwise the step of the state machine |
| AppRepositories.AppRepository.ImportHosts | crates/remotedeck-core/src/store.rs:209-250 | the whole list or nothing, and never while a host is being deleted |
| AppRepositories.AppRepository.BeginHostDeletion | crates/remotedeck-core/src/store.rs:252-262 | marks an existing, unreferenced host once |
| AppRepositories.AppRepository.FinishHostDeletion | crates/remotedeck-core/src/store.rs:264-274 | deletes the host with its tunnels and presets, and drops the mark in every case |
| AppRepositories.AppRepository.AbortHostDeletion | crates/remotedeck-core/src/store.rs:276-278 | drops the mark |
| AppRepositories.AppRepository.SaveTunnel | crates/remotedeck-core/src/store.rs:324-337 | refuses a tunnel for a host being deleted |
| AppRepositories.AppRepository.SaveCommand | crates/remotedeck-core/src/store.rs:379-396 | refuses a preset for a host being deleted |
| AppRepositories.AppRepository.DeleteTunnel | crates/remotedeck-core/src/store.rs:339-350 | removes the tunnel of that id, or fails without a change |
| AppRepositories.AppRepository.UpdateSettings | crates/remotedeck-core/src/store.rs:549-557 | changes nothing but the settings |
| AppRepositories.AppRepository.DeleteCommandForHost | crates/remotedeck-core/src/store.rs:398-430 | deletes only a preset of the selected host or of all hosts |
| AppRepositories.AppRepository.ImportBatch | crates/remotedeck-core/src/store.rs:440-547 | duplicate hash: nothing; otherwise the whole batch or nothing |
| RepositoryOutcomes.SaveHostOutcome | crates/remotedeck-core/src/store.rs:158-183 | saving a host succeeds if and only if neither it nor its jump is being deleted, the draft goes into the list, the jump settles, there is room and the disk takes it; only this record, and the jumps that named its old alias, change |
| RepositoryOutcomes.SavedJumpStandsFor | crates/remotedeck-core/src/store.rs:689-723 | the jump stored with a saved host is the id of the one host that the text of the draft stands for |
| RepositoryOutcomes.SaveTunnelOutcome | crates/remotedeck-core/src/store.rs:324-337 | exactly when a tunnel is saved, and that exactly this tunnel is made or replaced |
| RepositoryOutcomes.SaveCommandOutcome | crates/remotedeck-core/src/store.rs:379-396 | exactly when a preset is saved, and that exactly this preset is made or replaced |
| RepositoryOutcomes.BeginDeletionOutcome | crates/remotedeck-core/src/store.rs:252-262 | a host is marked if and only if it exists, is not marked and no other host jumps through it |
| RepositoryOutcomes.FinishDeletionRemoves | crates/remotedeck-core/src/store.rs:264-312 | a finished deletion removes the host, its tunnels and its presets, in place, and nothing else |
| RepositoryOutcomes.DeleteCommandOutcome | crates/remotedeck-core/src/store.rs:398-430 | a preset is deleted if and only if it is one of the selected host or of all hosts, and the host exists and is not being deleted |
| RepositorySteps.KeepHostsDeep | crates/remotedeck-core/src/store.rs:296-312 | removing a host nobody jumps through leaves the graph at depth one |
| RepositorySteps.ProposedSound | crates/remotedeck-core/src/store.rs:158-430 | whatever any operation wants to write satisfies every clause of the validator but the count caps, and has depth-one jumps |
| RepositorySteps.WriteFailsOnlyOnSize | crates/remotedeck-core/src/store.rs:1344-1478 | the write-time validator can refuse only because of a record count |
| RepositoryRuns.EveryRunIsSound | crates/remotedeck-core/src/store.rs:158-556 | from an empty repository every run of saves, edits, renames, imports and deletions leaves a state the validator accepts whose jumps form a depth-one graph |
| RepositoryRuns.ProposedKeepsMarks | crates/remotedeck-core/src/store.rs:158-183 | while a host is marked as being deleted no step makes another host jump through it |
| RepositoryRuns.MarkedHostGainsNothing | crates/remotedeck-core/src/store.rs:324-396 | while a host is marked no step adds a tunnel for it or a preset scoped to it |
| RepositoryRuns.FinishDeletionOutcome | crates/remotedeck-core/src/store.rs:264-312 | finishing a marked deletion succeeds exactly when the disk does, unless another host jumps to an id spelled like the alias of the host; then nothing mentions the host |
| RepositoryRuns.FinishDeletionFailsOnlyOnDisk | crates/remotedeck-core/src/store.rs:672-687 | with no alias spelled like an id, a marked deletion can fail only in persistence |
| AliasRuns.AliasTrap | crates/remotedeck-core/src/store.rs:296-312 | for any three ids, a run from the empty repository (save, save, mark, save) after which finishing a marked, unreferenced deletion is refused, because an alias is spelled like an id |
| AliasRuns.UpdateRedirects | crates/remotedeck-core/src/store.rs:560-590 | a successful edit points at the edited host exactly the jumps spelled like the alias it replaces, and leaves the jumps of all other hosts as they are |
| AliasRuns.UpdateLeavesJumps | crates/remotedeck-core/src/store.rs:572-580 | an edit leaves the jumps of all other hosts as they are if and only if it does not rename a host whose old alias is spelled like the id of another host that a third one jumps to |
| AliasRuns.RenameTrap | crates/remotedeck-core/src/store.rs:572-580 | for any such ids, a run from the empty repository in which renaming one host sends a second one, that jumps to a third, through it |
| RepositoryRuns.ImportBatchAllOrNothing | crates/remotedeck-core/src/store.rs:440-547 | a failed batch leaves memory unchanged; a successful one adds all of it, or nothing if its hash was known |
| RepositoryRuns.ImportBatchIdempotent | crates/remotedeck-core/src/store.rs:453-467 | importing the same hash again, in any letter case, changes nothing |
| StateFile.WriteIsAtomic | crates/remotedeck-core/src/store.rs:1479-1582 | however a write ends, by success, error or crash at any point, also with the renames since the last directory sync lost: all that programs see or a crash leaves has the state files of before the call, or the primary entirely old or entirely new, the backup untouched or the valid old primary, and a new primary only with the valid old one in the backup |
| StateFile.CompletedIsDurable | crates/remotedeck-core/src/store.rs:1563-1582 | after a completed write the new state is the only one that programs see and any crash leaves |
| StateFile.FailureLeaves | crates/remotedeck-core/src/store.rs:1563-1582 | an error before the replacement leaves the old file in sight; an error of the directory sync is reported although the new file is already in place |
| StateFile.OpenAfterInterruption | crates/remotedeck-core/src/store.rs:86-115 | opening after an interrupted write finds the new state or one that could have been found before the call, also during the recovery of a damaged primary |
| StateFile.BackupOnlyWithPrimary | crates/remotedeck-core/src/store.rs:1502-1506 | while the primary is invalid no write touches the backup |
| StateFile.EveryHistoryIsHealthy | crates/remotedeck-core/src/store.rs:78-115 | in every history of saves, openings, crashes and damage an opening finds, at once or after a crash, only states the repository keeps; a backup that no crash can take away is never lost; and opening fails exactly when a damaged primary has no backup |
| StateFile.CleanKeepsSound | crates/remotedeck-core/src/store.rs:1208-1216 | dropping inactive key files on opening keeps a state sound |
| StateRecovery.ValidatesMeans | crates/remotedeck-core/src/store.rs:1344-1478 | the validator accepts exactly the states of schema 2 within 512 hosts, 2048 tunnels, 4096 presets and 4096 hashes, with valid records, no repeated id or name, and nothing attached to a host that is not there |
| StateRecovery.FoundMeans | crates/remotedeck-core/src/store.rs:78-115 | an opening finds an empty state if there is no primary, else the state in the primary if it holds a valid one of at most 16 MiB, else the one in the backup, else it fails |
| StateRecovery.CleanMeans | crates/remotedeck-core/src/store.rs:1208-1216 | exactly the key files of hosts that do not authenticate by key are dropped |
| StateRecovery.OpeningLeaves | crates/remotedeck-core/src/store.rs:78-115 | once an opening is through, the primary holds the state it found, less those key files, and what had to be written for that survives every crash |
| HostOperations.HostOperationBarrier.Begin | crates/remotedeck-core/src/host_operation.rs:47-58 | a lease is handed out exactly while the host is not retired, and counted |
| HostOperations.HostOperationBarrier.End | crates/remotedeck-core/src/host_operation.rs:32-44 | dropping a lease uncounts it and removes an entry that says nothing |
| HostOperations.HostOperationBarrier.Retire | crates/remotedeck-core/src/host_operation.rs:60-67 | the host takes no new leases; the count stays |
| HostOperations.HostOperationBarrier.Restore | crates/remotedeck-core/src/host_operation.rs:89-99 | the host takes leases again; the outstanding count stays right |
| HostOperations.HostOperationBarrier.LooksIdle | crates/remotedeck-core/src/host_operation.rs:75-82 | idle exactly when no lease of the host is outstanding |
| HostOperations.NoLostWakeup | crates/remotedeck-core/src/host_operation.rs:69-87 | in every run the count equals the outstanding leases, an entry exists only while counted or retired, and a waiter is never left asleep once the host is idle and all notifications are out |
| HostOperations.IdleUntilRestored | crates/remotedeck-core/src/host_operation.rs:47-99 | a retired host that was seen idle stays idle and without leases until it is restored |
| HostOperations.OperationsMean | crates/remotedeck-core/src/host_operation.rs:32-99 | what each operation makes of the count and the mark of every host |
| HostOperations.WaitEnds | crates/remotedeck-core/src/host_operation.rs:69-87 | in every run: once no lease of the host is left, the notifications on their way and three turns of the waiter end the wait |
| HostDeletion.DeletionTask.DeleteHost | apps/server/src/api.rs:150-210 | the whole sequence with its rollbacks: deleted exactly when admitted, every wait succeeded and the disk took it; otherwise the state and the marks are unchanged and every place it came to shut is open again; other hosts are not touched |
| HostDeletion.DeletionTask.RetireRuntime | apps/server/src/api.rs:161-178 | the first half: all three places shut, or those reached so far open again |
| HostDeletion.DeletionTask.Remove | apps/server/src/api.rs:179-209 | the second half: the host deleted with everything that mentions it, or state and marks as before |
| HostDeletion.EveryRun | apps/server/src/api.rs:150-210 | in every interleaving of any number of deletions, also of one host, with other requests: a host is marked exactly while one and only one of its deletions holds the mark; that deletion holds it alone; a successful one has left no mention of the host; a failed one is rolled back |
| HostDeletion.FailureRollsBack | apps/server/src/api.rs:163-210 | at any time after a deletion failed: the host is marked if and only if another deletion holds the mark, present if and only if no other one has deleted it since the check, and each place is shut if and only if another deletion shut it last |
| HostDeletion.HolderFindsShut | apps/server/src/api.rs:179-209 | while a deletion holds the mark no other does, and each of the three places is open if and only if another deletion has opened it since and nobody has shut it again |
| HostDeletion.SuccessForgets | apps/server/src/api.rs:202-203 | from a successful deletion on, nothing mentions the host and nobody can mark it |
| HostDeletion.AloneDeletedOrRestored | apps/server/src/api.rs:150-210 | a deletion that is the only one of its host exits with the host gone and forgotten, or present, unmarked and open in all three places |
| HostRequests.RequestKeepsHosts | crates/remotedeck-core/src/store.rs:158-547 | no other request changes a mark or removes a host, and the hosts it adds carry the ids drawn for it |
| HostDeletion.LastStepFailsOnlyOnDisk | apps/server/src/api.rs:202-209 | with no alias spelled like an id, the last step can be refused only by the disk |
| DeletionOutcomes.EveryDeletionEnds | apps/server/src/api.rs:150-210 | whatever other deletions and requests do in between, and however its waits end, a deletion is over after thirteen actions of its own |
| DeletionOutcomes.UnhinderedDeletes | apps/server/src/api.rs:150-210 | a deletion that nothing hinders deletes its host, with its tunnels and presets and nothing else, if and only if the host can be deleted when it starts; otherwise it ends at once and changes nothing |
| DeletionRuns.SecondReopensUnderFirst | apps/server/src/api.rs:163-185 | for every deletable host, a run in which a second deletion comes up to the mark too late, fails, and opens all three places under the first one |
| DeletionRuns.SecondFailsWithHostGone | apps/server/src/api.rs:163-209 | and one in which it fails after the first has succeeded, with the host gone and all three places open |
| DeletionTables.RunsOfParts | apps/server/src/api.rs:150-210 | every run of the deletions on top of the tables of terminals and command jobs is, part by part, a run of the deletions, of the terminals and of the command jobs |
| DeletionTables.DeletionEmptiesTables | apps/server/src/api.rs:163-210 | in every run of the server, as soon as a deletion has marked its host and ever after it has deleted it: unless another deletion has opened the gate since, no terminal of the host has a slot or can be started and no command job of it is kept or can be started |
| CommandJobRegistries.CommandJobRegistry.StartProcess | crates/remotedeck-core/src/command_job.rs:636-695 | registers one queued job behind the pruned table, or refuses at 128 unfinished ones |
| CommandJobRegistries.CommandJobRegistry.RecordPtyHandoff | crates/remotedeck-core/src/command_job.rs:480-520 | records one finished job behind the pruned table |
| CommandJobRegistries.CommandJobRegistry.Cancel | crates/remotedeck-core/src/command_job.rs:524-550 | a queued job is cancelled at once, a running one starts cancelling, anything else is left alone |
| CommandJobRegistries.CommandJobRegistry.TransitionRunning | crates/remotedeck-core/src/command_job.rs:963-979 | only a queued job starts running |
| CommandJobRegistries.CommandJobRegistry.AppendJobOutput | crates/remotedeck-core/src/command_job.rs:981-1007 | only a running or cancelling job takes output, and only a change is a new revision |
| CommandJobRegistries.CommandJobRegistry.FinishCancelled | crates/remotedeck-core/src/command_job.rs:1056-1080 | sets any job to cancelled that is not already, then prunes |
| CommandJobRegistries.CommandJobRegistry.FinishJob | crates/remotedeck-core/src/command_job.rs:1082-1110 | finishes only a running or cancelling job, then prunes |
| CommandJobRegistries.CommandJobRegistry.PruneTerminalJobs | crates/remotedeck-core/src/command_job.rs:713-737 | drops the oldest finished jobs until there is room for one more and their output is within 16 MiB, or none is left |
| CommandJobRegistries.CommandJobRegistry.PurgeHost | crates/remotedeck-core/src/command_job.rs:628-629 | removes exactly the jobs of the host |
| CommandJobs.EveryRun | crates/remotedeck-core/src/command_job.rs:768-1110 | in every run, with any number of retirements also of one host: the recorded snapshots of a job have strictly increasing revisions, never falling rank, and nothing after a final state; a process is launched only after the one step from queued to running, never for a job cancelled while queued; at most `max` permits and both limits hold |
| CommandJobs.DoneMeansFinished | crates/remotedeck-core/src/command_job.rs:768-924 | an executor that is done has left its job finished, and an end of it was recorded if and only if no retirement has purged it unfinished; a job purged unfinished never gets an end |
| CommandJobs.FinishCancelledMeetsNoOther | crates/remotedeck-core/src/command_job.rs:775-792 | in reachable states it meets only jobs being cancelled or already cancelled |
| CommandJobs.PruneShrinks | crates/remotedeck-core/src/command_job.rs:713-725 | pruning removes finished jobs only, and stops at the limit unless only unfinished ones are left |
| JobSnapshots.FinishRecords | crates/remotedeck-core/src/command_job.rs:1082-1110 | a running or cancelling job gets exactly the state and exit code given, finished, with the next revision, the error behind its output, and the same id and host; no other job changes |
| JobSnapshots.FinishCancelledRecords | crates/remotedeck-core/src/command_job.rs:1056-1080 | exactly what is recorded of a job that ends cancelled |
| JobSnapshots.CancelRecords | crates/remotedeck-core/src/command_job.rs:524-550 | exactly what a request to cancel makes of a queued and of a running job |
| JobSnapshots.RegisterRecords | crates/remotedeck-core/src/command_job.rs:636-695 | a job is queued, with revision 1, if and only if fewer than 128 are unfinished |
| JobSnapshots.PruneMeans | crates/remotedeck-core/src/command_job.rs:713-737 | unfinished jobs stay; finished ones go, oldest first, until fewer than 512 jobs and at most 16 MiB of finished output are left |
| JobSnapshots.PrunesNoMore | crates/remotedeck-core/src/command_job.rs:713-737 | and no more of them: with the youngest that went, a limit would still be exceeded |
| JobSnapshots.FinishesAsDecided | crates/remotedeck-core/src/command_job.rs:768-924 | in every run an executor that finishes leaves as the last snapshot of its job the end it decided on: completed with the exit code, failed with it, or cancelled |
| JobSnapshots.FailedLaunchEnds | crates/remotedeck-core/src/command_job.rs:768-924 | in every run a launch that fails leaves its job failed, without an exit code |
| JobSnapshots.EndsByItsProcess | crates/remotedeck-core/src/command_job.rs:892-924 | in every run the last snapshot of a job that is kept says completed if and only if no cancellation came, its output could be read and the process exited with 0; cancelled if and only if one came and the process could be ended; and failed, with the exit code there is, otherwise |
| JobRetirement.AfterPurge | crates/remotedeck-core/src/command_job.rs:592-634 | right after a retirement has purged its host there is no job of it; one can come about without a further restore if and only if another task has restored the host since it was retired and nobody has retired it again, or something is under way for it, which takes such a restore too |
| JobRetirement.PurgesUnfinished | crates/remotedeck-core/src/command_job.rs:606-630 | the jobs a retirement purges unfinished are exactly the unfinished ones registered since it looked, and each of them came behind a restore by another task |
| JobRetirement.RetiredHostHasNoJobs | crates/remotedeck-core/src/command_job.rs:592-630 | with no restore by another task, a retirement that goes through loses no job and leaves a retired host with nothing under way, for which no job can be registered and no operation begun |
| JobRetirement.NoJobsUntilRestored | crates/remotedeck-core/src/command_job.rs:592-634 | whatever else happens, this stays so until the host is restored |
| JobRetirement.StaysWithoutWork | crates/remotedeck-core/src/command_job.rs:592-634 | however long ago a retirement went through, its host is without work or was restored since |
| JobRetirementRuns.RegistersBehindPurge | crates/remotedeck-core/src/command_job.rs:592-634 | a run from the start in which a job of the host is registered right after a retirement of it has gone through |
| JobRetirementRuns.PurgesRunningJob | crates/remotedeck-core/src/command_job.rs:592-634 | a run from the start in which a retirement purges a running job: its executor ends and the last snapshot of it says running |
| CommandOutput.CapturedStream.Append | crates/remotedeck-core/src/command_job.rs:1009-1032 | the in-place append computes `AppendBounded` and reports a change exactly for new data that is not cut off |
| CommandOutput.Floor | crates/remotedeck-core/src/command_job.rs:1034-1040 | the largest character boundary not beyond the limit |
| CommandOutput.AppendStaysText | crates/remotedeck-core/src/command_job.rs:1009-1040 | a captured stream stays valid UTF-8 of at most 1 MiB |
| CommandOutput.CaptureOfStream | crates/remotedeck-core/src/command_job.rs:1009-1032 | for every sequence of chunks: everything while it fits; marked and cut exactly when it does not, then a prefix but for at most three bytes in front of the marker |
| CommandOutput.CaptureUsesTheRoom | crates/remotedeck-core/src/command_job.rs:1009-1040 | for every sequence of chunks: up to 1048576 bytes are kept as they are; of more, the capture is at most three bytes short of that, with the marker at its end |
| CommandOutput.CutIsPrefix | crates/remotedeck-core/src/command_job.rs:1018-1030 | for valid UTF-8 the kept content is a prefix of the whole output if and only if the old text fitted the content limit, or can be cut there between characters, or the first character of the new text is wider than the room behind the cut |
| CommandOutput.SpliceIsShort | crates/remotedeck-core/src/command_job.rs:1018-1030 | at most three bytes of the new text are spliced in behind the cut |
| CommandOutput.SpliceHappens | crates/remotedeck-core/src/command_job.rs:1018-1030 | so a cut inside a character followed by new text that starts with ASCII is never a prefix |
| RequestAdmission.Requests.Claim | apps/server/src/operations.rs:354-401 | the in-place claim computes `ClaimKey`, expired records dropped first |
| RequestAdmission.EveryRun | apps/server/src/operations.rs:266-326 | in every run work starts at most once per record, and every unresolved record has a claimer about to spawn or a registered task |
| RequestAdmission.StepKeepsRecords | apps/server/src/operations.rs:371-373 | a resolved channel stays resolved, and an unresolved record is kept whatever its age |
| RequestHistory.ClaimMeans | apps/server/src/operations.rs:354-401 | a well-formed claim of a key in use joins its record or conflicts; any other gets a record while fewer than 1024 are in use; in use is what is younger than 1800 seconds or unresolved |
| RequestHistory.RepeatedRequestJoins | apps/server/src/operations.rs:371-383 | in every run, for less than 1800 seconds after a key got its record, the same request is given the channel of that record and one with other arguments conflicts |
| RequestHistory.WorkStartsOnce | apps/server/src/operations.rs:269-401 | in every run work is started once for each new record, and two new records of one key are at least 1800 seconds apart |
| RequestHistory.OldRecordIsForgotten | apps/server/src/operations.rs:371-401 | in every run a resolved record of 1800 seconds no longer answers |
| RequestHistory.SpawnMeans | apps/server/src/operations.rs:269-306 | in every run a claimed request starts if and only if admission is open and fewer than 128 tasks are registered; otherwise its waiters are told at once |
| RequestHistory.AnswerReaches | apps/server/src/operations.rs:288-306 | in every run the first answer of a task is what everybody who joined its request is given |
| RequestAdmission.NothingStartsAfterClose | apps/server/src/operations.rs:275-284 | nothing starts after admission was closed |
| RequestAdmission.ShutdownResolves | apps/server/src/operations.rs:310-326 | after a shutdown only requests between claim and spawn wait, and their spawn will resolve them |
| RequestAdmission.OutcomeReplaced | apps/server/src/operations.rs:288-320 | in every run an outcome already sent on a channel is replaced if and only if the shutdown drains a task that has answered and not unregistered, or a drained task answers before it stops; after that the outcome is final |
| RequestAdmission.BothReplacementsHappen | apps/server/src/operations.rs:288-320 | a run in which either happens, depending on what comes first |
| RequestAdmission.Admission.Spawn | apps/server/src/operations.rs:269-306 | registers the task, or resolves the channel with the rejection at once |
| RequestAdmission.Admission.CancelAll | apps/server/src/operations.rs:310-326 | closes admission and drains the table, each drained channel resolved |
| OperationLog.OperationTable.Start | apps/server/src/operations.rs:82-146 | admits an operation exactly while fewer than 32 are unfinished; only finished ones are evicted, the oldest first; results stay within 96 MiB and 256 records |
| OperationLog.OperationTable.EvictOldest | apps/server/src/operations.rs:101-114 | both limits hold afterwards, nothing is evicted without need, nothing unfinished ever |
| OperationLog.OperationTable.MarkRunning | apps/server/src/operations.rs:148-148 | marks the operation, within the same bounds |
| OperationLog.OperationTable.Finish | apps/server/src/operations.rs:165-184 | keeps a result of at most 2 MiB; a longer one counts as an error |
| PublicKeys.DecodeBase64 | crates/remotedeck-core/src/keys.rs:421-460 | succeeds if and only if the text is non-empty, at most 16384 bytes and the unpadded canonical encoding of some bytes, which it returns |
| PublicKeys.DecodeDigits | crates/remotedeck-core/src/keys.rs:434-447 | the bit loop accepts exactly the digit strings that are encodings |
| PublicKeys.EncodeBase64NoPadding | crates/remotedeck-core/src/keys.rs:473-490 | computes the encoding of section 4 of RFC 4648 without padding |
| PublicKeys.EncodedShape | crates/remotedeck-core/src/keys.rs:473-490 | an encoding consists of digits only and has a length that is never one more than a multiple of four |
| PublicKeys.EncodeInjective | crates/remotedeck-core/src/keys.rs:473-490 | different bytes have different encodings |
| PublicKeys.EncodeDecodes | crates/remotedeck-core/src/keys.rs:421-490 | decoding an encoding gives the bytes back |
| PublicKeys.ReadIsString | crates/remotedeck-core/src/keys.rs:407-419 | reading succeeds if and only if a string of section 5 of RFC 4251 stands at the cursor |
| PublicKeys.ValidateEd25519Payload | crates/remotedeck-core/src/keys.rs:396-405 | the sequence of reads computes `ValidatePayload` |
| PublicKeys.PayloadIsEncodedKey | crates/remotedeck-core/src/keys.rs:396-405 | a payload validates if and only if it is the encoding of the 51-byte blob of section 4 of RFC 8709 |
| ShellQuote.QuoteIsOneWord | crates/remotedeck-core/src/command_job.rs:1239-1241 | for every text its quotation is read as exactly one word, literally the text |
| ShellQuote.QuoteInjective | crates/remotedeck-core/src/command_job.rs:1239-1241 | different texts have different quotations |
| ShellQuote.SudoCommandTokens | crates/remotedeck-core/src/command_job.rs:289-293 | the elevated command is read as `sudo`, `--`, `sh`, `-lc` and the trimmed command as one literal word |
| ShellQuote.InDirectoryTokens | crates/remotedeck-core/src/command_job.rs:1224-1237 | the directory is one argument of `cd --`, only a leading `~/` expanded, and the command behind `&&` is read as it would be alone |
| CommandRisk.FindCommand | crates/remotedeck-core/src/risk.rs:493-515 | finds a program exactly where it stands between boundaries |
| CommandRisk.CheckReadOnlySegment | crates/remotedeck-core/src/risk.rs:363-449 | the index walk computes `IsReadOnlySegment` |
| CommandRisk.Raise | crates/remotedeck-core/src/risk.rs:223-234 | a finding that matched raises the risk and leaves its reason; nothing else does |
| CommandRisk.Detect | crates/remotedeck-core/src/risk.rs:210-234 | the detected risk, with a reason for anything above L0 |
| CommandRisk.AnalyzeCommand | crates/remotedeck-core/src/risk.rs:205-265 | the effective risk is the larger of declared and detected, with the confirmation it calls for; exactly when the input is refused, and why |
| CommandRisk.JoinSegments | crates/remotedeck-core/src/risk.rs:355-361 | joining two commands by any separators set off by whitespace concatenates their segments |
| CommandRisk.JoinCovers | crates/remotedeck-core/src/risk.rs:451-515 | every program, word and text found in a part is found in the command joined by any such separators |
| CommandRisk.JoinNeverLowers | crates/remotedeck-core/src/risk.rs:284-361 | joining by any separators set off by whitespace never lowers the risk of a command that has a non-empty segment |
| RiskOfJoined.NoSegmentsIsBlank | crates/remotedeck-core/src/risk.rs:355-361 | a command without segments consists of blanks and separators |
| RiskOfJoined.JoinAddsNothing | crates/remotedeck-core/src/risk.rs:363-515 | such a command brings no program, no word but separators and no plain text into a joined one |
| RiskOfJoined.JoinLowersExactly | crates/remotedeck-core/src/risk.rs:205-361 | joining lowers the risk if and only if one part has no segment and the other is L0, unless the empty part or the separators have a pipe and the other part mentions a download and a shell |
| RiskOfJoined.JoinRunsRemoteScript | crates/remotedeck-core/src/risk.rs:604-608 | a download piped into a shell is found in a joined command if and only if the download, the pipe and the shell are each found in a part, the pipe possibly in the separators |
| CommandRisk.SudoIsL2 | crates/remotedeck-core/src/risk.rs:308-313 | every command run with elevated rights is L2 |
| ProgramRisk.StandsIsFound | crates/remotedeck-core/src/risk.rs:493-515 | a program is found if and only if its whole name stands in the command, in any case, with a path in front or not |
| ProgramRisk.WordsMeans | crates/remotedeck-core/src/risk.rs:451-463 | the words of a command are what stands between whitespace, in lower case, less the marks around it |
| ProgramRisk.SegmentsMeans | crates/remotedeck-core/src/risk.rs:355-361 | the segments are the stretches between separators, trimmed, that are not empty |
| ProgramRisk.DestructiveIsL2 | crates/remotedeck-core/src/risk.rs:308-348 | a command is L2 if and only if it names one of the listed programs, or combines program and words in one of the listed ways |
| ProgramRisk.OnlyReadersAreL0 | crates/remotedeck-core/src/risk.rs:210-449 | a command is L0 if and only if it is not L2, nothing listed for L1 is in it, it has a segment, and every segment starts a listed program in a way that only reads |
| BrowserMerge.UpsertAllNewest | apps/web/src/store.ts:152-174 | a merged list shows for every delivered key one delivered item, none older than any other delivered |
| BrowserMerge.NewestUnique | apps/web/src/store.ts:211-219 | what is shown is determined by the set of items delivered |
| BrowserMerge.MergeCommandSnapshots | apps/web/src/store.ts:164-174 | the merge loop and both retention loops compute `MergeJobs` |
| BrowserMerge.ReplaceCommandJob | apps/web/src/store.ts:127-134 | a single event computes `ReplaceJob` |
| BrowserMerge.EventIsListing | apps/web/src/store.ts:127-174 | on a list within its limits an event is a listing of one snapshot |
| BrowserMerge.MergeTransferSnapshots | apps/web/src/store.ts:152-162 | the same for transfers |
| BrowserMerge.RetainLoop | apps/web/src/store.ts:108-116 | drops finished items from the front until the list is within its limit or has none left |
| BrowserRetention.RetainDropsFirst | apps/web/src/store.ts:108-116 | the list less its first finished items, as few as the limit demands |
| BrowserRetention.JobsForgotten | apps/web/src/store.ts:127-174 | of the jobs the first ended ones are forgotten, as few as it takes for at most 512 jobs and 16 MiB of output to be left |
| BrowserMerge.JobsConverge | apps/web/src/store.ts:164-174 | any order and repetition of the snapshots the server recorded leaves the same jobs, each with the greatest revision delivered |
| BrowserMerge.LastMadeShown | apps/web/src/store.ts:127-174 | in whatever order the snapshots of a run are sent: once the last one made of a job has arrived, it is what the browser shows of that job |
| BrowserMerge.TransfersConverge | apps/web/src/store.ts:152-162 | the same for transfers of which no two share id, revision and time |
| BrowserMerge.MergeTerminalListing | apps/web/src/terminal-events.ts:3-13 | the loop computes the merge of the listing |
| BrowserMerge.MergeTerminalEvent | apps/web/src/terminal-events.ts:20-31 | an event with a snapshot is a listing of one |
| BrowserMerge.TerminalsConverge | apps/web/src/terminal-events.ts:3-31 | any order and repetition leaves for each session the lexicographically greatest generation and revision |
| BrowserMerge.LastRecordedShown | apps/web/src/terminal-events.ts:3-18 | in whatever order the snapshots of a run are sent: the one shown is the one recorded last if and only if no earlier one has a higher generation |
| BrowserMerge.JobReplaces | apps/web/src/store.ts:211-219 | an arriving job replaces the one shown if and only if its revision is higher, or the same and its state and output are at least as far |
| BrowserMerge.TransferReplaces | apps/web/src/store.ts:211-214 | an arriving transfer, if and only if its revision is higher, or the same and it is not older |
| BrowserMerge.TerminalReplaces | apps/web/src/terminal-events.ts:15-18 | an arriving terminal, if and only if its generation is higher, or the same and its revision is |
| Pruning.PruneTable | crates/remotedeck-core/src/session.rs:1339-1352 | the loop of every pruned table computes `Prune` |
| Pruning.PruneKeeps | crates/remotedeck-core/src/command_job.rs:713-725 | pruning spares what is pinned and stops only when the table is within its limit or holds nothing else |
| Pruning.PruneRemovesOldest | crates/remotedeck-core/src/command_job.rs:713-725 | what pruning removed is no younger than any unpinned entry it kept |
| Pruning.PruneGoesNoFurther | crates/remotedeck-core/src/command_job.rs:713-725 | with the youngest entry it removed, the table would still be over its limit |

## Left out

- CommandJobs.EveryRun: orders the snapshots of a job as they are made under the lock; they are sent after the lock is released, so two sends may overtake each other. `BrowserMerge.LastMadeShown` says that their order does not matter to what is shown in the end.
- TerminalSlots.EveryRun: orders the snapshots of a session as they are recorded under the lock; they are published after it is released. `BrowserMerge.LastRecordedShown` is about any order of publishing.
- StateFile.WriteIsAtomic: models the file operations as steps on a directory value rather than on objects; it assumes that renames and replacements are atomic, that synced data survive a crash, and that what a crash loses of the renames is a suffix of those since the last directory sync.
- EventStream.NoHiddenGap: is a statement about runs whose starts are honest; `EventStream.StartIsHonest` says exactly which those are.
- OperationLog.OperationTable.Start: leaves out the events published for operations and the abort of pending operations at shutdown, after which a task may still run its last update.
- BrowserMerge.JobsConverge: is about lists below the retention limits of 512 tasks and 16 MiB; output length is counted in bytes where the browser counts UTF-16 units, and times, titles and texts of a job are not part of its record here.
- BrowserMerge.MergeTerminalEvent: does not model terminal events without a snapshot, which patch single fields.
- ShellQuote.InDirectoryTokens: the lexer covers quoting, blanks, doubled operators and which characters stay special; here-documents, comments, `<&`-style operators and the expansions themselves are not modelled.
- RequestAdmission.EveryRun: the digest of the arguments is a value that is equal exactly for equal arguments (SHA-256 taken as injective), and a task is named by the channel it answers.
- The settings patch: only its outcome, a new settings value or an error, is modelled; its checks are one field at a time.
- The file lock, the btop nonce, the known-hosts file and directory creation in `open`.
- PtyReader.Read: a stale generation is taken to stay stale, as the registry never reuses one; the error event of a failed read or answer is not part of the published text.
- Real input and output: processes, PTYs, sockets, HTTP routing, authentication, the Windows calls. Each appears only as an outcome.
- Saturation and wrap-around of 64-bit counters: counters are unbounded.
- Retrying, fairness and real time: what is stated is safety, the termination of loops, and what a number of turns achieves; that the turns are taken is not.
- Tunnels, telemetry, SFTP transfers, migration, key deployment, the OpenSSH configuration parser, the agent and the collectors: in the deletion of a host they are waits that may fail.
- The tunnel and telemetry merges in the browser: simpler instances of the merge that is modelled.
- `preview_host`: the same computation as saving a host, without the write.
