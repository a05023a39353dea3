# Proofs about the attn agent's delivery machinery

attn carries messages between agents over a relay that may disconnect, delay and redeliver. This project
models the parts that must survive that and proves what they promise, over every interleaving, every run or
every input. Run `dafny verify dfyconfig.toml`.

The stateful parts are state machines: a `State`, an `Event` for every critical section, store statement and send
that something else can come between (what is kept together is listed under "Left out"), `Enabled`, `Apply`, and an
invariant that every event keeps. Beside each stands a class with the source's own fields, whose methods do what the
source's methods do and are proved to take the state where the events take it. Theorems about runs start at `INIT`
and hold for all event lists.

| file | component |
|---|---|
| `RelayWaiters.dfy` | the session's waiter lists: one-slot channels, one request per key, answers, drains, timeouts |
| `DeliveryStatus.dfy` | delivery statuses reaching the send that waits for them |
| `Outbox.dfy` | the offline queue and its single-flight flush |
| `Inbound.dfy` | redelivery, acknowledgement, history, pending, approvals and blocks, statement by statement |
| `Provenance.dfy` | that everything in those tables is a delivered message, unchanged |
| `PendingNotices.dfy` | which unknown senders are announced, on the same machine |
| `ReplyTarget.dfy` | the last inbound message, in memory and in three rows, and what a reply goes back to |
| `Hermes.dfy` | the bridge's seen-set in front of the receiver's idempotency table |
| `Mesh.dfy` | the registry of local sessions, routing and broadcast |
| `Mutes.dfy` | timed mutes that expire lazily |
| `KeyCache.dfy` | the memory cache over the key table |
| `History.dfy`, `Timestamps.dfy` | history queries, and the timestamp text they compare |
| `PiClient.dfy` | the reconnecting client of the pi adapter |
| `Cli.dfy` | the command-line parser |
| `Files.dfy` | where an inbound file is saved, and under which name |
| `Durations.dfy` | duration and fee text |
| `Tables.dfy`, `Text.dfy`, `Numbers.dfy`, `Lexicographic.dfy`, `Wrappers.dfy` | tables and `ORDER BY`, trimming, decimal text, string order |

Assumed throughout: store calls succeed (the code ignores their errors), the clock does not go back, and a
message id belongs to one message.

## Where the code keeps less than it seems to promise

Each of these is a theorem here, with the exact condition where there is one.

- A process that dies between a successful outbox write and the row's delete sends the message again; nothing
  else ever does (`Outbox.CrashAfterWriteResends`, `Outbox.EveryRewriteIsACrash`).
- A message saved while an approval of its sender is between the two statements of `FlushPending` is deleted unread
  and acknowledged: no death and no block is needed (`Inbound.LateRowIsLost`, exact condition in
  `Inbound.LateRowLostIff`; `Inbound.LeavesTablesIff` has every way a stored message can go).
- A process that dies inside `addContactAndFlush` loses the rows it has taken out of pending and not yet saved,
  unless they are in history or pending again, acknowledged or not (`Inbound.DeathLosesAcked`).
- A handler that found its sender unknown may save the row after an approval or a block is over. The row stays in
  pending for a contact or a blocked sender (`Inbound.LateSaveRun`, condition in `Inbound.LateSaveIff`; which steps
  do it is `Inbound.StepUncoversIff`).
- A process that dies between marking a sender notified and the notice never announces that sender's pending
  messages (`PendingNotices.DeathSilencesEpoch`). One that dies before the mark leaves the notice owed; no other
  event costs a notice (`PendingNotices.NoticesCountEpochs`, `PendingNotices.OneNoticePerEpoch`).
- A sender is announced twice in one epoch if its rows are deleted between a handler's save and its question
  (`PendingNotices.SecondNotice`).
- Two senders that use one message id break the pending notices: the second is announced with nothing pending
  (`PendingNotices.SharedIdAnnouncesNothing`, condition in `PendingNotices.NoticeIffEpoch`).
- A process that dies inside `setLastInbound` leaves the rows of two messages mixed, and a reply may go to the
  sender of a group message alone (`ReplyTarget.ReplyGoesAstray`, conditions in `ReplyTarget.RestartKeepsTargetIff`
  and `ReplyTarget.ReplyGoesAstrayIff`).
- A caller whose request frame could not be written stays listed, and later callers for that key join it without
  asking, until the relay answers for the key all the same or a drain
  (`RelayWaiters.FailedWriteSilencesItsKey`; whether a request is out is decided by `RelayWaiters.RequestIsOutIff`).
- The receiver's table does not survive a restart, so a message whose response was lost can run twice within
  seconds (`Hermes.RestartRunsTwice`; nothing else does it with fewer than 8192 messages between, by
  `Hermes.OneRunPerWindow`).
- The bridge's Go `TrimSpace` and the receiver's Python `strip` differ on U+001C to U+001F. A message of such
  separators is forwarded, refused, retried, and then recorded as forwarded without having run
  (`Hermes.SeparatorIsRecordedWithoutRun`; nothing else is, by `Hermes.ForwardedRanIffNotEmpty`).
- `cachedKey` may overwrite a newer key in memory with the older one it read just before
  (`KeyCache.StalePrimeShadows`, condition in `KeyCache.PrimeIffCurrent`).
- `cacheKey` writes memory before the table. After a death in between, lookups answer the old key again
  (`KeyCache.HalfLearned`).
- `Unmute` reports a mute that has already expired as removed (`Mutes.UnmuteFindsExpiredMute`, condition in
  `Mutes.UnmuteSeesExpiredRows`).
- `IsMuted` selects and deletes in two statements; a mute set in between is deleted
  (`Mutes.LateDeleteDropsNewMute`, condition in `Mutes.StepAgreesIff`).
- A late `close` of an old pi socket drops the reference to the newer one, which stays open, also after `stop`
  (`PiClient.OnlyLateCloseAbandons`, `PiClient.TwoSocketsOpen`, `PiClient.AbandonedStaysOpen`). The comment on
  `start` calls it idempotent.
- From the year 10000 on, timestamp text no longer sorts by time (`Timestamps.YearTenThousandBreaksOrder`,
  `Timestamps.OrderedExactlyBelow`), and history and counts follow the text (`History.Store.GetHistory`).
- Registering one entry object twice lets the first release evict the second registration
  (`Mesh.SharedEntryEvicts`, condition in `Mesh.StaleReleaseIffShared`), against the comment on `Register`.
- The commands without a trailing argument ignore tokens, `status` even unknown flags, and `block x --unblock y`
  blocks (`Cli.TokenIgnoredIff`, `Cli.StatusTokenIgnoredIff`, `Cli.UnblockWithValueBlocks`). `op` with `--json-args null` and any other argument panics (`Cli.ParseOp`).
- Remaining times under a minute are printed in a form `parseDuration` rejects, and more than 106751 days
  overflow it (`Durations.SecondsAreNotRead`, `Durations.RemainingReadsBack`).

## Model

| member | source | states |
|---|---|---|
| RelayWaiters.StepKeeps | internal/relay/session.go:253-283 | Every registration, request write, receive, timeout, answer, send and drain keeps the invariant: waiter lists are non-empty, duplicate-free and disjoint from the detached list, all their channels are empty, each channel has seen at most one value, no blocked caller is forgotten, and only first callers write requests |
| RelayWaiters.ReadLoopNeverBlocks | internal/relay/session.go:381-422 | In every reachable state the unguarded sends of `handle` have room, each waiting channel occurs once in one list, and no channel ever gets two values |
| RelayWaiters.ReadLoopFinishes | internal/relay/session.go:390-392 | From any good state the read loop alone can always finish the list it detached |
| RelayWaiters.DetachedStaysOwed | internal/relay/session.go:386-392 | A detached channel keeps being owed exactly the reply it was detached for, whatever else runs in between |
| RelayWaiters.ListedGetTheAnswer | internal/relay/session.go:381-392 | Every caller listed when a response arrives has got that response and nothing else once the loop is through, also when it times out |
| RelayWaiters.DrainAnswersEveryone | internal/relay/session.go:253-283 | A drain empties all lists, gives every listed channel nil and only nil, touches no other channel, and a second drain does nothing |
| RelayWaiters.RepliesAreCorrelated | internal/relay/session.go:606-642 | A caller that returned a value returned one the relay gave for its own key, or nil from a drain |
| RelayWaiters.BlockedCallersAreReachable | internal/relay/session.go:630-641 | A caller still waiting has its value ready, is listed, or is about to be sent to |
| RelayWaiters.OneRequestPerTransition | internal/relay/session.go:613-624 | Over any run, the requests attempted for a key plus those owed equal the times its list went from empty to non-empty, and no caller writes twice |
| RelayWaiters.FailedWriteSilencesItsKey | internal/relay/session.go:620-641 | In every run, a caller whose request could not be written stays listed, and no new caller for its key is made to ask, until the relay answers for that key or a drain; timeouts do not help |
| RelayWaiters.SilentStep | internal/relay/session.go:253-283 | One step: an answer for the key or a drain empties the list, anything else leaves such a caller listed |
| RelayWaiters.RequestIsOutIff | internal/relay/session.go:613-628 | In every reachable state with callers waiting for a key, the caller that opened the list has got its request out exactly if the list holds no caller that has still to write it or failed to, and it is the only one that can be such |
| RelayWaiters.SilencedKey | internal/relay/session.go:620-624 | The shortest run in which a caller waits with no request on its way |
| RelayWaiters.WithoutKeepsOrder | internal/relay/session.go:311-322 | `removeWaiter` cuts out exactly the caller's channel and keeps the order of the others |
| RelayWaiters.WithoutMembers | internal/relay/session.go:311-322 | Removing a channel from a duplicate-free list leaves exactly the others, still duplicate-free |
| RelayWaiters.RemoveWaiter | internal/relay/session.go:311-322 | The loop removes the first occurrence, drops the key exactly when its list empties, and leaves other keys alone |
| RelayWaiters.NilEach | internal/relay/session.go:256-263 | The guarded sends of a drain give nil to each listed channel that has room and change no other |
| RelayWaiters.NilAll | internal/relay/session.go:253-283 | Draining list by list ends in the state of draining all at once |
| RelayWaiters.Session.RegisterWaiter | internal/relay/session.go:606-618 | Registration appends a new channel and reports first exactly for an empty list |
| RelayWaiters.Session.RequestWritten | internal/relay/session.go:619-628 | The first caller's write, and its return without deregistering when the write fails |
| RelayWaiters.Session.Wake | internal/relay/session.go:629-634 | A caller wakes with the only value its channel ever got |
| RelayWaiters.Session.GiveUpWaiting | internal/relay/session.go:634-641 | A timeout removes the caller's own channel, if still listed, and nothing else |
| RelayWaiters.Session.Respond | internal/relay/session.go:381-392 | The response handler, detach and sends, is the answer event followed by one send per detached channel |
| RelayWaiters.Session.DrainWaiters | internal/relay/session.go:253-283 | The drain loops are the one drain event |
| DeliveryStatus.StepKeeps | internal/relay/session.go:673-700 | Every step of a send, a status frame or an abort keeps each channel tied to the one id it was made for |
| DeliveryStatus.StatusMatchesSend | internal/relay/session.go:424-437 | A send that returns a status returns one the relay sent for that very id; its entry exists exactly while it waits |
| DeliveryStatus.FirstStatusIsReturned | internal/relay/session.go:424-437 | In any run, the first status looked up and sent while its send waits reaches it: whatever else happens, the send can return exactly that status until it returns or aborts, and returns nothing else |
| DeliveryStatus.HeldStatusIsReturned | internal/relay/session.go:690-700 | A status once in a send's channel stays there and is what the send returns, however many frames follow |
| DeliveryStatus.Deliveries.BeginSend | internal/relay/session.go:673-684 | A send registers a fresh channel under its id |
| DeliveryStatus.Deliveries.HandleStatus | internal/relay/session.go:424-437 | A frame puts its status into the channel registered for its id exactly if that is empty; entries and sends stay as they are |
| DeliveryStatus.Deliveries.ReturnStatus | internal/relay/session.go:685-700 | The waiting send takes the buffered status and removes its entry |
| DeliveryStatus.Deliveries.AbortSend | internal/relay/session.go:680-700 | A send that fails, times out or is cancelled removes its entry and returns no status |
| Outbox.StepKeeps | internal/agent/agent.go:172-194 | Every step, crashes included, keeps one place per queued id, the ledger of write outcomes, the single running flush, and the agreement of a flush's snapshot with the table |
| Outbox.AtMostOnceAndOneFate | internal/agent/agent.go:172-194 | Without a crash, each queued id is in exactly one of the outbox, the delivered and the discarded; delivered means written exactly once, discarded means exactly 10 failed writes and no success, and every outbox id has its history row or is about to |
| Outbox.EveryRewriteIsACrash | internal/agent/agent.go:172-194 | With crashes, an id's successful writes exceed one only by the outcomes that crashes lost |
| Outbox.CrashAfterWriteResends | internal/agent/agent.go:186-192 | A run with a crash between write and delete that writes an id twice |
| Outbox.WithoutCrashNothingIsLost | internal/agent/agent.go:172-194 | Only a crash loses a write outcome or a history row |
| Outbox.FlushesNeverOverlap | internal/relay/session.go:288-302 | At most one flush task exists, and exactly while the flag is set |
| Outbox.RowsKeepTheirContent | internal/store/store.go:464-499 | A queued row keeps recipient, ciphertext, signature and time for as long as it exists; only its attempts grow |
| Outbox.GoneStaysGone | internal/store/store.go:490-494 | An id that left the outbox never returns and is never written again |
| Outbox.FlushGoesByTime | internal/store/store.go:470-488 | In any run, of two rows one flush discards or writes the first has the smaller or the same time |
| Outbox.DeathKeepsTables | internal/agent/agent.go:172-194 | A death keeps the outbox and the history and ends everything else; a disconnect only stops the writes |
| Outbox.TreatedTable | internal/agent/agent.go:178-193 | The three branches of the flush loop: discard at the limit, count a failure, delete what was sent |
| Outbox.Agent.QueueOffline | internal/agent/ops.go:166-186 | An offline send stores the outbox row, then the history row |
| Outbox.Agent.LaunchOnReady | internal/relay/session.go:288-302 | An authentication starts a flush exactly when none is running |
| Outbox.Agent.BeginFlush | internal/store/store.go:470-488 | The snapshot holds every row once, in the order of the times |
| Outbox.Agent.FlushOutbox | internal/agent/agent.go:172-194 | An undisturbed flush is a run of the machine that goes from the oldest row to the youngest, leaves exactly the rows not written, with one more attempt each, minus those at the limit, and clears the flag |
| Outbox.FlushedAll | internal/agent/agent.go:172-194 | Treating the snapshot row by row gives the declarative result of a flush |
| Inbound.StepKeeps | internal/agent/agent.go:210-270 | Every statement of a handler, an approval or a block, in any interleaving, and every death keeps: accepted messages are in a table or an approval's hands exactly if neither purged nor lost since, history ids are inserted once, the reply target is the last message shown |
| Inbound.AckedIsStored | internal/relay/session.go:467-520 | An acknowledged DM from a sender not blocked at delivery is in history, in pending or in an approval's hands if and only if, since it was last stored, no block deleted it, no approval deleted it unread and no death caught it in hand |
| Inbound.LeavesTablesIff | internal/store/store.go:399-425 | The only ways a stored id goes: a block, or the delete of an approval that has not read it, takes its sender's rows while it is nowhere else; or the process dies while only an approval has it in hand |
| Inbound.LateRowLostIff | internal/store/store.go:399-425 | With one row saved between the select and the delete of `FlushPending`, a pending id ends in neither table exactly if it is that row's, the approval is of its sender and had read rows, and the id was in neither table before |
| Inbound.LateRowIsLost | internal/store/store.go:399-425 | A run without death or block after which an acknowledged message is in neither table |
| Inbound.DeathLosesAcked | internal/agent/ops.go:397-408 | A run with a death inside an approval after which an acknowledged message is in neither table |
| Inbound.DeathKeepsTables | internal/agent/ops.go:397-408 | A death keeps every table, and ends the handler and every operation |
| Inbound.SelectedAreSaved | internal/agent/ops.go:397-408 | Without a death, every row an approval has read is in history once the approval is over, whatever runs beside it |
| Inbound.StoredBeforeAck | internal/relay/session.go:467-520 | In every reachable state between handler and ack, a verified DM that was not dropped has been accepted, and is still located exactly if neither purged nor lost since |
| Inbound.StoringStep | internal/agent/agent.go:210-270 | A verified DM is dropped exactly if its sender is blocked; routing a known sender's message puts it into history and holding an unknown sender's into pending |
| Inbound.TablesAreConsistent | internal/agent/agent.go:241-270 | In every reachable state history holds each id once and the reply target is the last message shown. If every row was saved before its sender's approval or block, and no death cut one of those short, a pending row belongs to a contact or a blocked sender only while an operation under way has still to delete it |
| Inbound.StepUncoversIff | internal/agent/agent.go:247-250 | The steps that leave such a row behind are exactly the save for a sender approved or blocked since the check, and a death inside an approval or a block |
| Inbound.LateSaveIff | internal/agent/agent.go:247-250 | An approval or a block that runs whole between a handler's check and its save leaves the row behind exactly if it is of the same sender |
| Inbound.LateSaveRun | internal/agent/agent.go:247-250 | A run without death after which a contact has a pending row and nothing is under way |
| Inbound.FirstContentStays | internal/store/store.go:161-169 | Once in history a message keeps its first content under any further run |
| Inbound.ApprovalAlone | internal/agent/ops.go:397-408 | With nothing in between, the statements of an approval are a run that ends in the declared tables |
| Inbound.AddContactMovesAll | internal/agent/ops.go:397-408 | In those tables all of the sender's pending rows and no others have moved to history, oldest first, and history was never overwritten |
| Inbound.SaveAllRows | internal/agent/ops.go:403-405 | Saving flushed rows adds exactly their ids and changes nothing already there |
| Inbound.SaveAllOrder | internal/agent/ops.go:403-405 | The rows not already in history are inserted in the order flushed |
| Inbound.PendingLeavesTwoWays | internal/store/store.go:312-322 | A row leaves pending only with the delete of its sender's approval or block; it is then in history or in an approval's hands, or is booked as lost or purged |
| Inbound.HandlerAlone | internal/agent/agent.go:210-270 | With nothing in between, the statements of a handler are a run that ends in that same state |
| Provenance.EverythingWasDelivered | internal/agent/agent.go:241-286 | After any run each history row carries the text, the sender or group and the time of a message delivered under its id, each pending row those of a verified DM, and everything surfaced names such a message |
| Provenance.HandledMeans | internal/agent/agent.go:210-286 | Handled alone, a blocked or unverified message changes nothing; a group's or contact's is stored with its own text, peer and time unless the id is there, and shown unless muted; a stranger's is kept in pending, with a notice unless one was sent |
| Provenance.KnownIsStoredAndShown | internal/agent/agent.go:262-286 | The same for a known sender's message routed in any state of a run |
| Inbound.Agent.HandleKnownSender | internal/agent/agent.go:262-286 | The row with the message's text under its peer, and the surfacing and reply target unless muted |
| Inbound.Agent.HandleDelivery | internal/agent/agent.go:210-240 | The statements of a handler with nothing in between; what they make of a message is `Provenance.HandledMeans` |
| Inbound.Agent.HoldPending | internal/agent/agent.go:248-260 | Insert-or-ignore, then mark and announce the sender if none of its rows is notified |
| Inbound.Agent.SelectPending | internal/store/store.go:399-415 | Returns the sender's rows once each, oldest first |
| Inbound.Agent.DeletePending | internal/store/store.go:416-425 | Deletes whatever rows the sender has by then |
| Inbound.Agent.FlushPending | internal/store/store.go:399-425 | Select and delete, with any steps of the read loop between them, are a run of the machine; the delete is skipped when nothing was selected |
| Inbound.Agent.AddContactAndFlush | internal/agent/ops.go:397-408 | Upsert, select, delete and saves, with any steps of the read loop between select and delete, are a run of the machine |
| Inbound.Agent.BlockContact | internal/store/store.go:312-322 | A block alone adds the block and drops the contact and the sender's pending rows, and nothing else |
| Inbound.Agent.DropContact | internal/store/store.go:304-310 | Removing a contact touches the contact table only |
| Inbound.Agent.UnblockContact | internal/store/store.go:325-328 | Unblocking takes the address out of the blocked ones and touches nothing else |
| PendingNotices.NoticesCountEpochs | internal/agent/agent.go:248-260 | Over any run, the notices sent for a sender, those missed and the one still owed add up to the times its pending set went from empty to non-empty, plus the notices sent a second time |
| PendingNotices.OneNoticePerEpoch | internal/agent/agent.go:248-260 | Without a death, and unless the sender's rows are deleted between a handler's save and its question, every epoch gets exactly one notice |
| PendingNotices.StepKeepsAnnounced | internal/agent/agent.go:248-260 | Every step but a death keeps that each sender with pending rows has a marked one or a handler about to ask or mark |
| PendingNotices.DeathKeepsAnnouncedIff | internal/agent/agent.go:248-260 | A death keeps it exactly if every sender with pending rows has a marked one |
| PendingNotices.DeathSilencesEpoch | internal/agent/agent.go:250-257 | After a death between the mark and the notice, redelivery holds the message and announces nobody |
| PendingNotices.SecondNotice | internal/agent/agent.go:250-257 | A run with two notices in one epoch, the second about a message that is in neither table |
| PendingNotices.NoticeIffEpoch | internal/agent/agent.go:248-260 | A delivery handled alone sends the notice its sender's epoch is owed or opens, if and only if its id is not already pending for someone else while the sender has nothing pending |
| PendingNotices.SharedIdAnnouncesNothing | internal/store/store.go:375-381 | Two senders with one id: the second is announced with nothing pending |
| ReplyTarget.RestartKeepsTargetIff | internal/agent/agent.go:335-358 | After any run a restart keeps the reply target, unless it cuts the three writes short; then what it finds is the new target or the one before exactly if the two agree in what was written or in the rest |
| ReplyTarget.ReplyGoesAstrayIff | internal/agent/ops.go:234-248 | A reply after such a restart goes where neither target would have it go exactly if the death fell between the first two rows of a group message that followed another sender's direct one |
| ReplyTarget.ReplyGoesAstray | internal/agent/agent.go:335-345 | A run to such a restart |
| ReplyTarget.Agent.SetLastInbound | internal/agent/agent.go:335-345 | Fields, then the three rows, which then name the same message |
| ReplyTarget.Agent.GetLastInbound | internal/agent/agent.go:347-358 | The fields, or the rows when sender and id are empty |
| Hermes.StepKeeps | adapters/hermes/bridge/bridge.go:284-308 | Every frame, answer, lost or late post and restart keeps the bridge set, the receiver's window and the record of runs |
| Hermes.OneRunPerWindow | adapters/hermes/plugin/attn/adapter.py:204-242 | Over all losses, retries and restarts, an id taken in twice less than an hour apart had at least 8192 other ids taken in between, or a receiver restart |
| Hermes.EpochCountsRestarts | adapters/hermes/plugin/attn/adapter.py:122-142 | The epoch an acceptance carries is the number of receiver restarts before it |
| Hermes.RestartRunsTwice | adapters/hermes/plugin/attn/adapter.py:204-218 | A run with one restart in which a message runs twice one second apart |
| Hermes.PruneRemembers | adapters/hermes/plugin/attn/adapter.py:204-218 | After a prune an id accepted within the hour is still in the table, or 8192 other ids were accepted since |
| Hermes.PruneDropsOldest | adapters/hermes/plugin/attn/adapter.py:206-214 | A prune drops no entry newer than one it keeps, keeps none expired, and drops a live one only to meet the cap |
| Hermes.BridgeSetIsExact | adapters/hermes/bridge/bridge.go:394-418 | The bridge's set holds exactly the ids forwarded since its last reset and the one in flight, never more than 4096; the receiver's table never more than 8193 |
| Hermes.ForwardedRanIffNotEmpty | adapters/hermes/bridge/bridge.go:297-307 | An id recorded as forwarded has started a run exactly if its text is not empty for the receiver |
| Hermes.ForwardedYetEmpty | adapters/hermes/bridge/bridge.go:311-326 | A frame is forwarded and yet empty for the receiver exactly if it is a message of spaces and at least one information separator |
| Hermes.SeparatorIsRecordedWithoutRun | adapters/hermes/plugin/attn/adapter.py:229-242 | A run in which such a message is recorded as forwarded and never runs |
| Hermes.FailureIsRetried | adapters/hermes/bridge/bridge.go:297-307 | After a failed or unanswered post the same frame will be posted again |
| Hermes.RestartsForget | adapters/hermes/bridge/bridge.go:394-418 | A restart empties the memory of the side that restarts and nothing else |
| Hermes.EchoesAreNeverPosted | adapters/hermes/bridge/bridge.go:311-326 | Over any run every post is that of a frame taken from another session, with text or a file |
| Hermes.TakesIffForeign | adapters/hermes/bridge/bridge.go:284-326 | An idle bridge takes a frame exactly if its id is new, it is not its own session's, and it is a message that is not blank or a file with a name or a path; any other changes nothing |
| Hermes.PostCarriesFrame | adapters/hermes/bridge/bridge.go:328-352 | A post carries the frame's text, or a notice naming the file, its size and its path, under the frame's id or else its digest |
| Hermes.KeepNewest | adapters/hermes/plugin/attn/adapter.py:206-214 | Filtering by age and sorting by time leaves a legal prune |
| Hermes.Receiver.IsDuplicate | adapters/hermes/plugin/attn/adapter.py:204-218 | Prunes, then answers whether the id is there, and records it if not |
| Hermes.Receiver.HandleInbound | adapters/hermes/plugin/attn/adapter.py:220-242 | Success for a duplicate or a non-empty text; a run exactly for a new id with non-empty text |
| Hermes.Bridge.AlreadySeen | adapters/hermes/bridge/bridge.go:394-409 | Reports membership, records a new id, empties the set first when full |
| Hermes.Bridge.HandleFrame | adapters/hermes/bridge/bridge.go:284-308 | One frame with its post is the take event and the resolve event; an own echo, an unusable frame or a known id changes neither side, and a new id is kept exactly if the receiver answered with success |
| Mesh.TableIsStanding | internal/mesh/registry.go:118-149 | After any sequence of registrations, releases and deregistrations a name maps to its newest registration unless that one was released or the name deregistered since |
| Mesh.ReleaseIffStanding | internal/mesh/registry.go:132-138 | After any log, a release changes the table exactly if a registration of its entry object stands |
| Mesh.StaleReleaseIffShared | internal/mesh/registry.go:112-138 | A stale release is a no-op exactly if no later standing registration uses the same entry object |
| Mesh.OwnReleaseIffStanding | internal/mesh/registry.go:132-138 | When every registration has its own entry, a release changes the table exactly if its own registration stands |
| Mesh.OldNeverReappears | internal/mesh/registry.go:118-149 | A registration that was replaced, released or deregistered is never in the table again |
| Mesh.SharedEntryEvicts | internal/mesh/registry.go:112-117 | The shortest log in which a stale release evicts: one entry registered twice |
| Mesh.Registry.Register | internal/mesh/registry.go:118-131 | The table stays the one its event log determines |
| Mesh.Registry.Release | internal/mesh/registry.go:132-138 | The same for the release closure |
| Mesh.Registry.DeregisterByName | internal/mesh/registry.go:141-149 | The same for deregistration, which reports whether there was an entry |
| Mesh.Registry.Route | internal/mesh/registry.go:164-190 | Delivers to exactly the entry current at lookup under the trimmed name, whatever is done to the registry before the delivery, or to nobody |
| Mesh.Registry.Broadcast | internal/mesh/registry.go:194-213 | Delivers exactly once to each entry of the snapshot but the excluded name and to nobody else, under any churn, and returns the sorted distinct names that accepted |
| Mesh.Registry.Names | internal/mesh/registry.go:232-242 | All names, sorted, each once |
| Mutes.LazyExpiryIsUnobservable | internal/store/store.go:756-819 | However the statements of mutes, unmutes, queries and lists of any number of callers interleave, all answers are as if expired rows vanished the instant they expire, as long as no late delete of a query hits a mute in force |
| Mutes.CheckAgrees | internal/agent/agent.go:310-323 | So does the agent's three-part check answer, although it stops at the first hit, time passes, and others mute, unmute and query between its statements |
| Mutes.CheckMeans | internal/agent/agent.go:310-323 | Undisturbed it asks whether everything is muted, or the group, or the sender |
| Mutes.MuteLastsUntil | internal/store/store.go:756-796 | Whatever is done to other targets, a target once muted reads as muted up to the end time and not from then on, or for good without one |
| Mutes.StepAgreesIff | internal/store/store.go:756-819 | Each single statement answers alike, and leaves the tables in agreement on what is in force exactly if it is not the delete of a mute in force |
| Mutes.ShortCircuitLeavesRows | internal/agent/agent.go:310-323 | The short-circuit leaves an expired row in the table |
| Mutes.UnmuteSeesExpiredRows | internal/store/store.go:822-832 | The unmute's lookup differs from the eager table exactly on an expired row not yet purged |
| Mutes.UnmuteFindsExpiredMute | internal/agent/ops.go:938-966 | A run after which `Unmute` finds a mute that has already ended |
| Mutes.UnhurriedIsHarmless | internal/store/store.go:781-796 | No late delete hits a mute in force if nobody mutes the same target between the two statements of a query |
| Mutes.LateDeleteDropsNewMute | internal/store/store.go:791-793 | A run in which a query finds a mute expired, the target is muted anew, and the query's delete takes the new mute away |
| Mutes.MuteTable.AddMute | internal/store/store.go:756-769 | An upsert under the normalised target, without an end time when it is not positive |
| Mutes.MuteTable.RemoveMute | internal/store/store.go:771-779 | Deletes one row and reports whether it was there |
| Mutes.MuteTable.IsMuted | internal/store/store.go:781-796 | Answers from one row, and when that has expired deletes whatever is under the key after others had their turn |
| Mutes.MuteTable.IsAgentMuted | internal/agent/agent.go:310-323 | Global, then group, then sender, stopping at the first hit, with others at work between all statements |
| Mutes.MuteTable.GetMutes | internal/store/store.go:801-819 | Purges everything expired and returns the rest |
| KeyCache.TwoLevelsAnswerAsTable | internal/agent/agent.go:197-206 | With each response and each lookup atomic, lookups answer exactly as the table alone, and restarts change no answer |
| KeyCache.LookupFindsLast | internal/agent/agent.go:197-206 | A lookup finds the key of the last response for the address, in any spelling and through restarts |
| KeyCache.PrimeIffCurrent | internal/relay/session.go:595-602 | Priming keeps the levels in agreement exactly if the key is still the stored one |
| KeyCache.StalePrimeShadows | internal/agent/agent.go:197-206 | A response between the read and the prime leaves an old key in memory, until a restart or another response |
| KeyCache.HalfLearned | internal/relay/session.go:578-586 | A death between the two halves of learning a key: the levels agree exactly if the table has the key already, and the new key is answered before the restart and the table's after it |
| KeyCache.Cache.CacheKey | internal/relay/session.go:578-586 | A learned key goes to both levels |
| KeyCache.Cache.CachedKey | internal/agent/agent.go:197-206 | Memory, else the table, priming memory with what was found |
| Timestamps.IsoOrder | internal/agent/agent.go:362-367 | Before year 10000 the text of two times compares as the times do |
| Timestamps.DateRoundTrips | internal/agent/agent.go:366 | The date written is the date of that day, by the closed form of the Gregorian calendar |
| Timestamps.IsoIsTheTime | internal/agent/agent.go:366 | The text is a calendar date and a time of day in the format of RFC 3339, section 5.6, that count back to exactly the milliseconds |
| Timestamps.YearIs | internal/agent/agent.go:366 | The year found is the one whose span contains the day |
| Timestamps.PadOrder | internal/store/store.go:33 | Fixed-width decimal fields compare as their numbers |
| Timestamps.YearTenThousandBreaksOrder | internal/agent/agent.go:366 | The first millisecond of year 10000 sorts before the last of 9999 |
| Timestamps.OrderedExactlyBelow | internal/agent/agent.go:362-367 | Text order is time order below a bound exactly if the bound is at most the start of year 10000 |
| History.TopRowsAreHistory | internal/store/store.go:172-196 | The first rows of the query, reversed, are the last ones in text order, and nothing left out has a greater text |
| History.TextHistoryIsHistory | internal/store/store.go:172-196 | Without rows of the year 10000 these are the latest ones, oldest first, and nothing left out is later |
| History.ShownOfPeer | internal/store/store.go:172-196 | The answer holds only the peer's rows, as they are, and leaves one out only when it is full |
| History.TextOrder | internal/store/store.go:176-178 | Below the year 10000 ordering by text is ordering by time |
| History.Reverse | internal/store/store.go:192-194 | The two-index loop reverses the array in place |
| History.Store.GetHistory | internal/store/store.go:172-196 | Returns the `limit` (default 20) last rows with the peer in text order, which are the latest, oldest first, if none is of the year 10000 |
| History.Store.CountInboundSince | internal/store/store.go:834-850 | Counts exactly the inbound rows whose text is at or after that of the time, for one peer or for all, and by time below the year 10000 |
| History.Store.SaveMessage | internal/store/store.go:161-169 | First row wins; a time that is not positive becomes the current one |
| History.CountRows | internal/store/store.go:838-841 | The count of the rows whose text is at or after the bound |
| Tables.OrderBy | internal/store/store.go:403-410 | What a select with an order returns: every row once, in order |
| Lexicographic.LeIff | internal/mesh/registry.go:211 | String order: a prefix comes first, otherwise the first difference decides |
| Text.NormalizeTwice | internal/agent/agent.go:68 | Normalising an address again changes nothing, so the layers may each do it |
| Text.NormalizeIdentifies | internal/store/store.go:146 | Two addresses are the same exactly if they are the same text but for case and outer spaces |
| Text.SpaceTable | internal/store/store.go:146 | The code points Go and Python trim |
| Text.TrimCuts | internal/store/store.go:146 | Trimming removes exactly the outer spaces |
| PiClient.StepKeeps | adapters/pi/src/core.ts:187-265 | Every start, stop, timeout and socket event, with any synchronous close, keeps the invariant |
| PiClient.NeverStuckNorDoubleTimed | adapters/pi/src/core.ts:202-265 | `reconnectTimer` is the only pending timeout; stopped means no socket and no timer; a started client that may reconnect always has one of them |
| PiClient.StopIsFinal | adapters/pi/src/core.ts:202-209 | After stop, until the next start, there is no socket, no timer, and no socket is created |
| PiClient.OnlyLateCloseAbandons | adapters/pi/src/core.ts:187-256 | Of all events, exactly a close or error from another socket than the open one in use abandons a socket |
| PiClient.TwoSocketsOpen | adapters/pi/src/core.ts:187-256 | Two starts and a late close end with two sockets open |
| PiClient.AbandonedStaysOpen | adapters/pi/src/core.ts:199-257 | A socket once abandoned stays open and unreferenced through all starts, stops and timeouts until it closes by itself |
| PiClient.StopClosesOnlyCurrent | adapters/pi/src/core.ts:199-217 | Stop closes the current socket and no other |
| PiClient.AttnMeshClient.CallStart | adapters/pi/src/core.ts:187-193 | The method is the start event |
| PiClient.AttnMeshClient.CallStop | adapters/pi/src/core.ts:199-206 | The method is the stop event |
| PiClient.AttnMeshClient.TimeoutFires | adapters/pi/src/core.ts:259-265 | The timeout's callback is the timer event |
| PiClient.AttnMeshClient.TryConnect | adapters/pi/src/core.ts:219-257 | Clears the timer, closes the old socket, and opens one or schedules a retry |
| PiClient.AttnMeshClient.HandleGone | adapters/pi/src/core.ts:248-256 | Drops whatever socket is current and schedules a retry |
| PiClient.AttnMeshClient.ScheduleReconnect | adapters/pi/src/core.ts:259-265 | Sets a timeout unless stopped, disabled or already set |
| Cli.LexLosesNothing | cmd/attn/main.go:113-149 | The pieces a line is split into, put back, are the line: no token is lost, invented or moved |
| Cli.OnlyReading | cmd/attn/main.go:113-149 | There is exactly one way to read a token as a word, a setting, or a flag with or without a value, and it is the one taken |
| Cli.Split | cmd/attn/main.go:113-149 | The index loop collects exactly those pieces |
| Cli.WordsAndSwitches | cmd/attn/main.go:113-149 | The words are all words in order; a switch is set exactly when given bare |
| Cli.LastValueWins | cmd/attn/main.go:133-141 | A repeated flag has its last value |
| Cli.LastAddressWins | cmd/attn/main.go:129-132 | The address is the last one given |
| Cli.NoSilentTruncation | cmd/attn/main.go:193-248 | `send` and `send-group` accept a line exactly if nothing else before the first free `--` starts with dashes and there are two words or more; then every token but `--json`, `--addr` with its value and that `--` is the recipient or part of the message, in order |
| Cli.NoSilentTruncationOfReplies | cmd/attn/main.go:193-248 | The same for `reply`, with one word or more |
| Cli.SendRoundTrip | cmd/attn/main.go:121-127 | `send -- to words…` is accepted for any words and comes back as exactly `to` and the words joined |
| Cli.SentWordsReadBack | cmd/attn/main.go:235 | The message of `send` splits at its spaces into the words of the line, in order |
| Cli.SendTwoWords | cmd/attn/main.go:235 | Two words are sent with one space between them |
| Cli.JoinConcat | cmd/attn/main.go:235 | Joining keeps the order and puts one space between the parts |
| Cli.JoinSplits | cmd/attn/main.go:235 | Words without spaces read back from the joined text |
| Cli.CreateGroupRoundTrip | cmd/attn/main.go:232-234 | `create-group` gives the name and the list of members as they are on the line |
| Cli.ParseInvocation | cmd/attn/main.go:113-248 | The error, in the order the checks run, or exactly the arguments that the line and the command's table entry determine; for `op`, given what the JSON decodes to |
| Cli.ParseOp | cmd/attn/main.go:167-191 | `op` needs a name; flags replace `key=value` words, which replace JSON fields; after a JSON null any of them writes to a nil map |
| Cli.WordArguments | cmd/attn/main.go:178-182 | The last word for a key counts, words without `=` do not |
| Cli.LastPairWins | cmd/attn/main.go:178-182 | The last word that assigns a key decides it; without one the JSON field stays |
| Cli.OpArgsSources | cmd/attn/main.go:183-187 | A flag decides its key, else words and JSON do; `--json-args` is no argument |
| Cli.ParseWith | cmd/attn/main.go:196-248 | Unknown flags, then missing arguments, then a missing message, then the arguments |
| Cli.Arguments | cmd/attn/main.go:217-245 | The arguments hold exactly the positionals, the trailing words, and the command's flags and switches that were given |
| Cli.RejectUnknownFlags | cmd/attn/main.go:251-263 | Reports some unknown flag exactly when there is one |
| Cli.Specs | cmd/attn/main.go:58-87 | No two argument keys of one command coincide, so no argument overwrites another, and only commands without flags have a trailing argument |
| Cli.CommandIsServed | internal/agent/ops.go:25-96 | Every command calls the operation it is for, with exactly the arguments that operation reads, the words of the line in the order it takes them |
| Cli.EveryNameIsRead | cmd/attn/main.go:58-87 | Every command can be given by its name |
| Cli.CommandByName | cmd/attn/main.go:58-87 | And by no other |
| Cli.FlagNames | cmd/attn/main.go:58-87 | The names the flags are given by |
| Cli.NeedsItsWords | cmd/attn/main.go:207-213 | Every command but `names` reports how many words it needs exactly if there are too few; `names` takes its word or none |
| Cli.IgnoredTokens | cmd/attn/main.go:217-245 | Without a trailing argument, extra words, switches given a value and flags given none do not affect the arguments |
| Cli.TokenIgnoredIff | cmd/attn/main.go:127-141 | An accepted line of a command without a trailing argument has a token it parses the same without, exactly if it has too many words, a switch with a value, a flag without one, or a flag given twice |
| Cli.StatusTokenIgnoredIff | cmd/attn/main.go:151-165 | `status` without words accepts any flags and ignores them all; with words an accepted line has such a token exactly if it has a second word, a bare `--message`, or two |
| Cli.EveryTokenCounts | cmd/attn/main.go:217-233 | In an accepted line of a command with a trailing argument no word or flag can be left out without changing the result |
| Cli.UnblockWithValueBlocks | cmd/attn/main.go:133-141 | The line `block x --unblock y` is accepted and blocks x |
| Files.CandidatesDiffer | internal/agent/surface.go:249-255 | The names tried are pairwise different |
| Files.CandidatesStayInDirectory | internal/agent/surface.go:249-255 | All of them are in the destination's directory |
| Files.NumberBeforeExtension | internal/agent/surface.go:249-255 | The number goes before the extension, which begins at the last dot of the name |
| Files.NumberAtEnd | internal/agent/surface.go:249-255 | And at the end of a name without a dot |
| Files.SomeNameIsFree | internal/agent/surface.go:251-272 | With fewer than 1000 files in the directory, one of the 1000 names is free |
| Files.Disk.WriteNoClobber | internal/agent/surface.go:248-274 | The first free name gets exactly the data; every existing file keeps its content; the call runs out of names exactly if all 1000 exist |
| Files.Disk.Create | internal/agent/surface.go:256-271 | Open, write and close of a free name, and which file a failure leaves |
| Files.DestIsInInbox | internal/agent/surface.go:210-243 | A destination is a single name directly inside the inbox, and there is one exactly if the reference names a file in either field and the inbox is not the root |
| Files.BaseHasNoSlash | internal/agent/surface.go:211-217 | A base name is `/` or has no slash |
| Files.BaseIsLast | internal/agent/surface.go:211-217 | A base name is the last element of the path, whatever slashes follow |
| Durations.MatchIsUnique | internal/agent/util.go:28 | The pattern matches in at most one way, the one computed |
| Durations.MatchMatches | internal/agent/util.go:28 | What is computed is a match of the pattern |
| Durations.ParsesUnlessItOverflows | internal/agent/util.go:31-52 | A duration has its value if that fits 64-bit nanoseconds, and otherwise comes out too small |
| Durations.RemainingReadsBack | internal/agent/util.go:54-65 | A remaining time of a minute or more reads back rounded up by less than the unit shown, exactly up to 106751 days |
| Durations.SecondsAreNotRead | internal/agent/util.go:54-57 | A remaining time under a minute is printed in a form that is not read back |
| Durations.SecondsShown | internal/agent/util.go:54-57 | Under a minute the text counts the seconds left, rounded up |
| Durations.FeeTextIsClose | internal/agent/util.go:91-101 | The fee text reads back as the fee rounded to a millionth, is within half a millionth of it, and ends in no superfluous zero or dot |
| Durations.TrimmedFee | internal/agent/util.go:96 | Trimming zeros, then dots, takes off the fraction's zeros, and its dot when nothing is left |

## Left out

- Cryptography, JSON, HTTP, WebSocket and SQLite: only their outcomes appear (verified or not, write ok or failed, response lost, row ignored).
- Store errors: the code drops them, and the model has none.
- `WaitReady`, and a second `auth_ok` on one connection, which would close a closed channel.
- The session's reconnect loop: backoff and timing; a timeout is an event that may happen.
- The relay's three waiter maps are one map keyed by table and name.
- Group REST operations, invites, member updates and reactions of the inbound pipeline: plain inserts and deletes.
- Group and outbound sends over a live connection, apart from their delivery status.
- The order of rows with equal sort keys, and of `GetMutes`: any order is allowed.
- Lower-casing beyond ASCII letters: addresses have none.
- `Register` with a nil entry or a nil deliverer, which does nothing.
- The JSON of `attn op --json-args` is decoded by a parameter. The error texts carry no help lines.
- What a handler does for a known sender is one event of `Inbound`: a name sync, a save that history keeps, and the surfacing. A death inside it leaves a stored message unsurfaced. The three writes of the reply target are `ReplyTarget`.
- Inbound.AddContactMovesAll: is about an approval alone. What others do to it is `Inbound.SelectedAreSaved`, `Inbound.LateRowLostIff` and the ledger.
- The clock reading of `IsMuted` and the two statements of `GetMutes`: each is one step with the select.
- `filepath.Abs` and `filepath.Clean`: `Files.InboxDest` takes the inbox as the clean absolute path they return, on Unix.
- `weiToEth` of a nil or negative amount: nil is "0", and fees are not negative.
- Names, config, installers, text rendering, MCP schemas, the hub's buffers and the opencode bridge: thin wrappers, or weaker copies of what is here.
