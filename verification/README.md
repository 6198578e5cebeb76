# Verified model of the server-authoritative chat protocol

The chat worker is the only writer of chat state. Clients send commands over MQTT (QoS 1, section 4.3.2
of MQTT Version 3.1.1), the worker runs one database transaction per accepted command and appends the
canonical events to an outbox table in the same transaction, a publisher drains the outbox to the broker,
and clients project the events, together with REST pages, onto the screen. Every link may deliver more
than once. The model states and proves what that chain promises anyway.

The modules follow that chain.

- `domain.dfy` — messages, reactions and canonical events.
- `authority.dfy`, `worker.dfy`, `delivery.dfy` — the database, what each command handler reads and
  commits, the worker as a class whose transactions roll back, and every run of it: interleaved stages,
  redelivery, crashes before the PUBACK.
- `rights.dfy` — who may do what, stated about the tables alone, and that no run announces or stores anything
  without a command of someone entitled to it.
- `receipts.dfy` — read and delivered watermarks, the client's watermark and the unread badge.
- `outbox.dfy`, `crash_replay.dfy`, `failures.dfy` — the publisher's batches, several replicas, crashes that
  roll a batch back after part of it was published, and exactly which failed publishes are harmless.
- `absorption.dfy`, `replay.dfy`, `projection.dfy`, `screen.dfy` — why replaying a stretch is harmless for
  any projection that obeys one law, what a stream of events means to the web client, that the log is the
  state, and that the screen of a caught-up client is the database, with rows fetched over REST merged in.
- `mobile.dfy` — the mobile reducers, which obey that law only for what already exists, and why crash
  replay leaves them right all the same.
- `transcript.dfy`, `history.dfy`, `web_client.dfy` — the store's reducers, cursor paging, gap recovery,
  reconnecting, and the web client as a class whose event handler refines the replayed view.
- `pair_key.dfy`, `direct.dfy`, `opening.dfy`, `group.dfy` — one DIRECT row per pair under races, what a call gets
  alone and among others, and group membership.
- `lifecycle.dfy` — the mobile send lifecycle, cut at its awaits.
- `cascade.dfy`, `firing.dfy`, `echo.dfy`, `endless.dfy` — the bot rule engine closed over the chat worker, which
  rules fire and what they publish, and exactly which rule tables keep every cascade bounded.
- `chips.dfy`, `rows.dfy`, `presence.dfy`, `hash.dfy` — transcript rows, presence sets, the colour hash.

Code that changes state is modelled by classes and methods (`Worker.Store`, `Worker.ChatWorker`,
`Outbox.OutboxPublisher`, `WebClient.Client`, `Direct.Conversations`, `Group.ChatController`,
`Lifecycle.MessageLifecycleStore`, `Cascade.RuleEngine`, `Presence.PresenceRepository`, the loops of
`Rows`, `Chips`, `History`, `Transcript`, `Receipts` and `Hash`). Each method is tied to a function of
the old state, and the results below are about those functions over all runs. What a method answers and writes is
also stated apart from that function: outright in its contract, or by a lemma named `...Exactly` about the tables,
lists and commands themselves.

## Where the code and its documentation part

The model follows the code. Each point is a lemma.

- The catch block of the web gap recovery says that the next canonical event retries. It does not: the
  watermark it compares with is already past the hole (`History.MissedRecoveryIsFinal`). A failed fetch leaves
  holes between cached rows (`History.FailedFetchLeavesHoles`). No recovery, older page or reconnect fills such a
  hole: only its own row as a live event, or opening the conversation while the row is among the newest 50
  (`History.InnerHoleFilledExactly`). An outage of more than 100 messages leaves one even when every fetch
  succeeds, because the refreshed list entry lifts the watermark (`History.LongOutageLeavesHole`).
- Opening a conversation installs the newest 50 rows under the cached ones without asking whether they meet. A
  contiguous cache stays contiguous exactly when at most 50 messages are newer (`History.OpeningHealsExactly`);
  otherwise all rows in between become such holes (`History.OpeningGap`).
- Recovered rows are upserted over what is cached, so one that was read before an edit and arrives after the
  edit's event takes the edit back (`WebClient.StaleRecoveryLosesEdit`). A fetched row is right for every log
  exactly when it was read at or after the position the stream had reached when it was upserted
  (`Screen.FetchedRowServesExactly`); the rest of the stream then brings it up to date (`Screen.RowCatchesUp`).
- Flushing goes through a snapshot of the queue, so an entry whose message has arrived meanwhile is shown as pending
  again beside it (`Lifecycle.StaleFlushRevives`). A reconciled entry stays away for good, short of sending its id
  again, if and only if no flush under way still held it (`Lifecycle.ReconciledForGoodExactly`).
- A zero cursor is dropped by the REST client, so the recovery of an empty client fetches the newest rows
  instead of the oldest missing ones (`History.EmptyClientRecovery`).
- The row builder's comment says that a day break always ends a sender run. It ends one only when the
  messages around it do not group (`Rows.DayBreakEndsRunExactly`, `Rows.DayBreakInsideRun`). A separator
  is pushed before the message that opens its day, so oldest-first it stands below it (`Rows.SeparatorPlace`).
- A bot send whose clientMessageId is held by another conversation is acknowledged without being stored
  (`Delivery.BotAckStoresExactly`, `Delivery.BotAckWithoutMessage`). User sends are not.
- One failed publish lets later rows overtake it; an edit that overtakes its creation is never shown
  (`CrashReplay.OvertakenEditIsLost`). A schedule that publishes everything serves every log if and only if in
  no committed batch a row was acknowledged after one before it had failed (`Failures.FailuresServeExactly`).
  What counts is the order of last acknowledgements: first ones in log order are not enough
  (`Failures.FirstOrderIsNotEnough`). Crash replay without failed publishes is harmless.
- Unkeyed DIRECT rows with fewer than two members can be adopted by two pairs at once. One row per pair
  holds if and only if there is no such row (`Direct.OneRowExactly`). A keyed row that is short of a member
  makes one of two concurrent calls fail, because the repair inserts without skipping duplicates and its
  violation is not caught (`Direct.StumpFails`, `Direct.OneRowAndNoneFailsExactly`).
- Pair keys are joined with a colon and ids are not checked for one. Two pairs share a key exactly when they are
  the same or split one text at two of its colons (`PairKey.SharedKeyExactly`), and every id is in some pair
  that does (`PairKey.EveryIdCollides`).
- The server and the web clear a deleted message's text; mobile keeps it (`Mobile.DeletedTextStays`). The mobile
  row is the stored one if and only if no deletion came after the last text or that text is empty
  (`Mobile.MobileIsStoredExactly`). Deleted alone does not decide: an edit checked before a deletion and
  committed after it writes its text into the deleted row everywhere (`Mobile.EditOutlivesDelete`), and a run from
  the empty system gets there (`Mobile.LateEdit`).
- The engine's comment says that loop protection and cooldowns prevent storms. A table's cascades are bounded if
  and only if no rules of allowing bots lead back into one another: each by a message it sends, now or on schedule,
  or by a reaction that any rule answers with one (`Endless.BoundedExactly`). An allowing bot that schedules an
  answer to every message goes on for ever (`Endless.ScheduledEchoes`); one that answers /ping with pong does not
  (`Endless.PingPongSettles`). An echoing table passes every bound as long as cooldowns expire
  (`Endless.EchoNeverStops`); each expiry buys at most one more round of actions (`Endless.CooldownThrottles`).

## Model

| member | source | states |
|---|---|---|
| `Delivery.ExactlyOnce` | apps/chat-worker/src/handlers/messages.ts:119-213 | after every run with redelivery, interleaving and crashes: sequences exactly 1..lastSequence once each, one message per clientMessageId, one message.created row per message in sequence order announcing a submitted command, and an acknowledged accepted send is stored in its conversation |
| `Delivery.SequenceIndexNeverFires` | apps/chat-worker/src/handlers/messages.ts:123-146 | a send aborts on a unique index exactly for a known clientMessageId or primary key, never for (conversation, sequence) |
| `Delivery.TransactSound` | apps/chat-worker/src/handlers/messages.ts:119-170 | whatever a handler commits after an arbitrarily stale check keeps every database invariant and takes nothing back |
| `Delivery.NextKeeps` | apps/chat-worker/src/worker.ts:81-127 | every step of handlers, broker and API keeps database, ledger, pending handlers' facts and acknowledged promises |
| `Delivery.RunGrows` | apps/chat-worker/src/handlers/receipts.ts:26-87 | over any run no message, sequence, watermark or outbox row is taken back |
| `Delivery.BotAckStoresExactly` | apps/chat-worker/src/handlers/bot-send.ts:54-127 | an acknowledged bot send is stored in its conversation if and only if no other conversation held its clientMessageId |
| `Delivery.ClaimedForGood` | apps/chat-worker/src/handlers/bot-send.ts:117-125 | a clientMessageId held by another conversation is never stored here, in any continuation of the run |
| `Delivery.BotAckWithoutMessage` | apps/chat-worker/src/handlers/bot-send.ts:117-125 | a run from the empty system after which a bot send is acknowledged as accepted, and in every continuation its conversation never gets the message |
| `Delivery.RedeliveredNotAcked` | apps/chat-worker/src/worker.ts:87-127 | in no run is a command acknowledged that its handler left to be redelivered |
| `Rights.OnlyAsked` | apps/chat-worker/src/handlers/messages.ts:79-330 | after every run each announced event but the opening and closing of conversations, each text, deletion and reaction, and each positive watermark was asked for by a submitted command of someone whose standing allows it: members send, react and report, enabled member bots send, authors edit, authors and admins delete |
| `Rights.SendersBelong` | apps/chat-worker/src/handlers/messages.ts:91-117 | every stored message was sent by a member of its conversation, a bot's by an enabled bot, and a reply answers a message of that conversation |
| `Rights.ReceiptsAsked` | apps/chat-worker/src/handlers/receipts.ts:18-87 | every announced receipt value and every positive watermark is at most the sequence of a submitted receipt of that user, kind and conversation |
| `Rights.CheckExactly` | apps/chat-worker/src/handlers/messages.ts:79-117 | the checks let through exactly what the tables permit and what moves something; a user's send that is not permitted is refused and everything else dropped |
| `Rights.MembersAsCreated` | apps/api/src/controllers/chat.controller.ts:424-443 | in every run of the worker a conversation has the members and roles it was created with |
| `Worker.Store.InsertMessage` | apps/chat-worker/src/handlers/messages.ts:121-170 | bump, insert and outbox row together; on a duplicate the rollback takes the bump back |
| `Worker.Store.HandleMessageSend` | apps/chat-worker/src/handlers/messages.ts:79-214 | refused, changing nothing, exactly when the actor is missing or no member, the conversation is tombstoned or the reply target is elsewhere; otherwise the next message with its row and event, or nothing on a unique-key hit, and accepted exactly when the message is in its conversation |
| `Worker.Store.HandleBotSend` | apps/chat-worker/src/handlers/bot-send.ts:19-128 | dropped exactly when the bot is unknown, disabled or no member or the reply target is elsewhere, whatever the tombstone says; otherwise acknowledged, with the next message stored or nothing on a unique-key hit |
| `Worker.Store.HandleMessageEdit` | apps/chat-worker/src/handlers/messages.ts:216-271 | done exactly for the author of a live message of that conversation, whose text alone changes, with one event |
| `Worker.Store.HandleMessageDelete` | apps/chat-worker/src/handlers/messages.ts:273-330 | done exactly for the author or an admin and a live message of that conversation, which is cleared and tombstoned, with one event |
| `Worker.Store.HandleReactionAdd` | apps/chat-worker/src/handlers/reactions.ts:10-72 | done exactly for a member and a live message of that conversation; a row and an event on a new triple, nothing on a duplicate |
| `Worker.Store.HandleReactionRemove` | apps/chat-worker/src/handlers/reactions.ts:74-122 | done exactly for a member; the row goes, with an event, only if it was there in that conversation |
| `Worker.Store.AdvanceWatermark` | apps/chat-worker/src/handlers/receipts.ts:44-81 | conditional update and one outbox row per recipient, or nothing |
| `Worker.Store.HandleReceipt` | apps/chat-worker/src/handlers/receipts.ts:18-145 | accepted exactly when the smaller of the asked and the last sequence exceeds the member's watermark, which then is exactly that value and is announced to each listed recipient; otherwise nothing changes |
| `Worker.ChatWorker.Consume` | apps/chat-worker/src/worker.ts:87-127 | acked exactly when the handler settled without rethrowing; poison acked untouched; while stopping nothing is processed or acked |
| `Worker.ChatWorker.Stop` | apps/chat-worker/src/worker.ts:72 | from then on consume nacks |
| `Worker.HandleIsTwoSteps` | apps/chat-worker/src/worker.ts:119-126 | an uninterrupted handler is one path through the interleaved steps the run results quantify over |
| `Worker.RedeliveryHarmless` | apps/chat-worker/src/handlers/messages.ts:190-206 | handling any command again changes no table; only an edit repeats its event |
| `Receipts.ReceiptSafety` | apps/chat-worker/src/handlers/receipts.ts:26-87 | with transactions split between read and conditional update: watermarks bounded by lastSequence and never regressing, emitted values strictly increasing per member and recipient, never above the persisted value, and the persisted value announced to every recipient |
| `Receipts.AdvanceMemberWatermark` | packages/realtime-core/src/read-watermark.ts:25-39 | raises exactly that member's watermark, and returns null exactly when nothing changed |
| `Receipts.ReceivedMaximum` | packages/realtime-core/src/read-watermark.ts:25-39 | the received watermark is the maximum of start and received values |
| `Receipts.AnyOrderConverges` | packages/realtime-core/src/read-watermark.ts:25-39 | a client that saw each receipt at least once, in any order, shows the server's watermark of every member |
| `Receipts.UnreadBadge` | apps/web/src/components/Sidebar.tsx:281-283 | the badge is the number of the conversation's messages past my watermark, in the database and among the rows on screen |
| `Outbox.SelectsOldest` | apps/chat-worker/src/outbox.ts:82-88 | an eligible unlocked row is left out only of a batch full of older ones |
| `Outbox.SelectsExactly` | apps/chat-worker/src/outbox.ts:82-88 | a row is in the batch exactly when it waits and fewer than the limit wait ahead of it, and that is its place |
| `Outbox.OutboxPublisher.ProcessBatch` | apps/chat-worker/src/outbox.ts:74-119 | the rows published and the table left, for every outcome of each publish and for a crash anywhere |
| `Outbox.BatchExactly` | apps/chat-worker/src/outbox.ts:74-119 | what a batch does to each row, by how many wait ahead of it: published and on the stream in order if its publish was acknowledged, one more attempt if it failed, untouched otherwise, and nothing else on the stream |
| `Outbox.Conservation` | apps/chat-worker/src/outbox.ts:74-119 | with any replicas: committed events all stay, each published, eligible or parked at exactly ten failures; published implies acked; acks at most one more than rolled-back batches; no row locked twice |
| `Replay.ApplyLaw` | apps/web/src/app/chat/page.tsx:330-506 | web clients that agree after an event still agree after any other event and that event again |
| `Replay.StepperLawful` | apps/web/src/app/chat/page.tsx:330-506 | routing events into the web projection obeys the replay law, event by event and for every pair of events |
| `Absorption.Idempotent` | apps/chat-worker/src/outbox.ts:78-79 | publishing any stretch a second time changes nothing, for every lawful projection in any state |
| `Absorption.Absorb` | apps/chat-worker/src/outbox.ts:78-79 | a published prefix is absorbed by publishing the stretch from its start |
| `CrashReplay.BatchIsAttempt` | apps/chat-worker/src/outbox.ts:82-93 | a batch over a drained table is the next min(50, rest) rows in order, and its effect on stream and table |
| `CrashReplay.DrainRefines` | apps/chat-worker/src/outbox.ts:74-119 | every lawful projection ends where the log applied once puts it, after any schedule of batches and crashes ending with a commit |
| `CrashReplay.CrashReplayRefines` | apps/chat-worker/src/outbox.ts:74-119 | after any schedule of batches and crashes ending with a commit, the published stream and the log applied once give one projection |
| `CrashReplay.ScreenIsDatabase` | apps/web/src/app/chat/page.tsx:409-506 | run the worker and drain the outbox in any way: any user's projection agrees with the database |
| `CrashReplay.BootstrapBarrier` | apps/web/src/app/chat/page.tsx:65-133 | wherever the REST list is cut after subscribing, installing it and replaying the buffer gives the server's lastSequence and read watermarks, crash duplicates included |
| `CrashReplay.OvertakenEditIsLost` | apps/chat-worker/src/outbox.ts:104-118 | the failing input: one failed publish after which the client never shows the edit |
| `Failures.OrderedLastsRefine` | apps/chat-worker/src/outbox.ts:96-118 | any lawful projection ends where the log puts it when the last acknowledgements cover all rows in log order |
| `Failures.AcksServeExactly` | apps/chat-worker/src/outbox.ts:96-118 | a sequence of acknowledgements leaves every log's client right if and only if every row occurs and last acknowledgements are in log order |
| `Failures.FailuresServeExactly` | apps/chat-worker/src/outbox.ts:74-119 | for every schedule with failures and crashes that publishes everything: stream and log agree for every log if and only if no committed batch acknowledged a row after one before it failed |
| `Failures.FirstOrderIsNotEnough` | apps/chat-worker/src/outbox.ts:104-118 | first acknowledgements in log order with a misread log all the same |
| `Projection.LogIsState` | apps/chat-worker/src/handlers/messages.ts:119-170 | folding the committed log at any user's client gives exactly the live rows with content, flags and reactions, and exactly that user's list entries |
| `Transcript.MergeMessageSnapshot` | packages/realtime-core/src/index.ts:241-248 | the loop over the id map computes the merge |
| `Transcript.UpsertMeaning` | apps/web/src/store/chat-store.ts:311-328 | a known id is replaced, a new one sorted in, every other row untouched, order kept |
| `Transcript.PrependMeaning` | apps/web/src/store/chat-store.ts:297-309 | cached rows win, page rows fill in, order kept |
| `Transcript.MergeMeaning` | packages/realtime-core/src/index.ts:241-248 | live rows win over a stale snapshot, snapshot rows fill the rest, order kept |
| `Transcript.OrderIndependent` | apps/web/src/store/chat-store.ts:297-328 | any interleaving of upserts, older pages and snapshots: strictly increasing, ids exactly the union, and equal skeletons for equal arrivals |
| `History.OlderPage` | apps/api/src/controllers/chat.controller.ts:731-767 | a page before a cursor of a dense history is the slice below it, with hasMore iff the page is full |
| `History.NewerPage` | apps/api/src/controllers/chat.controller.ts:731-767 | a page after a cursor is the slice above it |
| `History.LoadOlderMeaning` | apps/web/src/components/MessageList.tsx:308-329 | one load extends a contiguous span downwards by one page and says truthfully whether more is left |
| `History.LoadEverything` | apps/web/src/components/MessageList.tsx:308-329 | loading until hasMore is false ends within ceil(lo/50) rounds with sequences 1..hi once each, while the server keeps growing |
| `History.RecoverSequenceGap` | apps/web/src/app/chat/page.tsx:538-551 | the recovery loop upserts the fetched rows one by one |
| `History.GapHealsExactly` | apps/web/src/app/chat/page.tsx:421-439 | after a jump and its completed recovery the transcript is contiguous if and only if at most 100 messages were missing |
| `History.MissedRecoveryIsFinal` | apps/web/src/app/chat/page.tsx:538-551 | a sequence missing at or below the watermark comes back through live events and their recoveries if and only if its own row is delivered again |
| `History.InnerHoleFilledExactly` | apps/web/src/app/chat/page.tsx:538-590 | a hole between cached rows is filled by live events, recoveries, older pages, reconnects and openings, in any order, if and only if its own row is delivered again as a live event or the conversation is opened while the row is among the newest 50 |
| `History.OpeningHealsExactly` | apps/web/src/components/MessageList.tsx:116-137 | opening a conversation over a contiguous cache leaves it contiguous if and only if at most 50 messages are newer, and then it holds everything up to the newest |
| `History.OpeningGap` | apps/web/src/components/MessageList.tsx:116-137 | with more than 50 newer messages every row between the cached ones and the newest 50 is left as a hole |
| `History.FailedFetchLeavesHoles` | apps/web/src/app/chat/page.tsx:545-548 | a jump whose fetch fails leaves every message in between as such a hole |
| `History.EmptyClientRecovery` | apps/web/src/lib/api.ts:119-130 | an empty client recovers everything if and only if the history fits one recovery page |
| `History.ReconnectExtends` | apps/web/src/app/chat/page.tsx:560-590 | reconnecting extends a contiguous tail by the next 100 missed messages |
| `History.LongOutageLeavesHole` | apps/web/src/app/chat/page.tsx:560-590 | after an outage of more than 100 messages the first unfetched one comes back through live events if and only if it is delivered again |
| `WebClient.UpsertTidy` | apps/web/src/store/chat-store.ts:311-328 | an upsert changes one row of one list and keeps every list ordered and at home |
| `WebClient.PatchLookup` | apps/web/src/store/chat-store.ts:358-408 | updateMessage, removeMessage and applyReaction change the named row only, cached conversation or not |
| `WebClient.PatchIsRowStep` | apps/web/src/store/chat-store.ts:148-169 | a patched row shows what its event means, reactions as a set |
| `WebClient.RowsStep` | apps/web/src/app/chat/page.tsx:409-499 | routing any placed event through the cache is one replay step on the rows |
| `WebClient.ListStep` | apps/web/src/store/chat-store.ts:247-286 | routing any event through the conversation list is one replay step on the entries |
| `WebClient.Client.StartRecovery` | apps/web/src/app/chat/page.tsx:538-540 | at most one recovery per conversation at a time |
| `WebClient.Client.FinishRecovery` | apps/web/src/app/chat/page.tsx:541-551 | fetched rows upserted into that list only, the screen then represents the view with those rows over it, the guard released in every case |
| `WebClient.Client.PrependMessages` | apps/web/src/store/chat-store.ts:297-309 | after an older page the screen represents the view with its missing rows filled in |
| `WebClient.StaleRecoveryLosesEdit` | apps/web/src/app/chat/page.tsx:538-551 | a recovered row read before an edit and upserted after its event takes the edit back, whatever is cached |
| `WebClient.Client.HandleEvent` | apps/web/src/app/chat/page.tsx:317-522 | handling an event keeps the screen representing the replayed view; a fetch starts exactly when a new message's sequence exceeds by more than one the highest sequence held before, in the list entry or any cached row, and none is under way, and it asks for what follows that highest |
| `WebClient.Client.HandleCreated` | apps/web/src/app/chat/page.tsx:409-439 | the row, the list entry's sequence and the fetch of one new message |
| `WebClient.Client.RecoverJump` | apps/web/src/app/chat/page.tsx:421-551 | a jump from w to s handled and its fetch answered from the server's dense history leaves the cached list one stretch if and only if at most 100 messages were missing |
| `WebClient.Client.OnEvent` | apps/web/src/app/chat/page.tsx:95-98 | buffered untouched while a snapshot is awaited, routed otherwise |
| `WebClient.Client.OnDisconnect` | apps/web/src/app/chat/page.tsx:76-79 | a lost connection makes later events wait, and changes nothing already held |
| `WebClient.Client.ReplayBufferedEvents` | apps/web/src/app/chat/page.tsx:70-73 | everything buffered is routed once in order and nothing stays behind |
| `WebClient.Client.FinishBootstrap` | apps/web/src/app/chat/page.tsx:100-133 | after the list snapshot and the replay the screen represents the buffered stream folded over the snapshot |
| `Screen.StreamPlaced` | apps/chat-worker/src/handlers/messages.ts:148-165 | every event of any crash-replayed stream names its message's own conversation and sequence, as the handler requires |
| `Screen.RowCatchesUp` | apps/web/src/app/chat/page.tsx:65-133 | a row read over REST at or after the publisher's position is, after the rest of the stream with crash duplicates, what the log says |
| `Screen.FetchedRowServesExactly` | apps/web/src/app/chat/page.tsx:538-551 | a row fetched over REST and put over the cache ends as the stored row, for every log and every way the rest of it arrives, if and only if it was read at or after the position of the stream at the upsert, or from an empty log |
| `Screen.CaughtUpScreen` | apps/web/src/app/chat/page.tsx:317-506 | with list and rows fetched at any cut and a stream that may begin before it: every cached row of a live conversation is the stored one, the list is the stored history if all rows at the cut were fetched, and the entry has the stored sequence and watermarks |
| `Mobile.CreatedIsPrepend` | apps/mobile/src/hooks/useChatSession.ts:326-333 | the mobile reducer for message.created keeps a cached row and sorts a new one in, as an older page is merged |
| `Mobile.ChangerLawful` | apps/mobile/src/hooks/useChatSession.ts:348-457 | edits, deletions and reactions obey the replay law on rows that exist |
| `Mobile.EntryChangerLawful` | apps/mobile/src/features/conversations/conversation-events.ts:79-154 | creations, activity and receipts obey it on entries that exist |
| `Mobile.BegunRefines` | apps/chat-worker/src/outbox.ts:74-119 | a projection lawful only once something exists still ends where the log puts it, as streams never run ahead of the log |
| `Mobile.MobileRowRefines` | apps/mobile/src/hooks/useChatSession.ts:319-457 | crash-replay refinement of every mobile row although redelivered creations are ignored |
| `Mobile.MobileEntryRefines` | apps/mobile/src/features/conversations/conversation-events.ts:33-154 | crash-replay refinement of every mobile list entry across its creation and deletion |
| `Mobile.MobileShowsStored` | apps/mobile/src/hooks/useChatSession.ts:319-457 | a caught-up mobile row of a live message holds the content last created or edited and is the stored row in everything else; the stored content is that text unless a deletion came after it |
| `Mobile.MobileIsStoredExactly` | apps/mobile/src/hooks/useChatSession.ts:384-414 | it is the stored row if and only if no deletion came after the last text or that text is empty |
| `Mobile.EditOutlivesDelete` | apps/chat-worker/src/handlers/messages.ts:233-243 | an edit checked before a deletion and committed after it leaves its text in the deleted row |
| `Mobile.LateEdit` | apps/chat-worker/src/handlers/messages.ts:233-243 | a run from the empty system after which a deleted message holds the text of a late edit |
| `Mobile.MobileListIsDatabase` | apps/mobile/src/features/conversations/conversation-events.ts:33-154 | a caught-up mobile list has exactly the user's live conversations, with lastSequence and read watermarks |
| `Mobile.MobileBootstrapBarrier` | apps/mobile/src/hooks/useChatSession.ts:234-271 | wherever the REST list is cut after subscribing, installing it and replaying the buffer ends with what the database lists for every conversation, crash duplicates from before the cut included |
| `Mobile.DeletedTextStays` | apps/mobile/src/hooks/useChatSession.ts:384-414 | a concrete creation and deletion after which mobile still holds the text and the web does not |
| `PairKey.Symmetric` | packages/database/src/index.ts:49-54 | the key does not depend on the order of the ids |
| `PairKey.InjectiveOnPairs` | packages/database/src/index.ts:49-54 | colon-free pairs share a key if and only if they are the same pair |
| `PairKey.SharedKeyExactly` | packages/database/src/index.ts:49-54 | any two pairs share a key if and only if they are the same or split one text at two of its colons |
| `PairKey.EveryIdCollides` | packages/database/src/index.ts:49-54 | every id is in a pair that shares its key with another pair, once colons are allowed |
| `Direct.Conversations.AdoptLegacy` | apps/api/src/controllers/chat.controller.ts:337-358 | key and missing members stamped together, or rolled back exactly when the key index or a member key objects |
| `Direct.Conversations.CreateRow` | apps/api/src/controllers/chat.controller.ts:424-443 | a keyed row with both members, or nothing exactly when the key is taken |
| `Direct.Conversations.RepairMembership` | apps/api/src/controllers/chat.controller.ts:400-422 | the members that were missing when read are inserted together, or nothing exactly when one is there by now |
| `Direct.SafeWithoutShells` | apps/api/src/controllers/chat.controller.ts:291-397 | without shells no interleaving splits a pair over two rows or keys a row twice, and without short keyed rows no call fails |
| `Direct.ReturnedRowIsComplete` | apps/api/src/controllers/chat.controller.ts:302-397 | a returned row holds exactly the two members, by whichever of the five ways it came |
| `Direct.ShellBreaks` | apps/api/src/controllers/chat.controller.ts:323-333 | from any database with a shell some interleaving gives two pairs one row |
| `Direct.OneRowExactly` | apps/api/src/controllers/chat.controller.ts:291-397 | in every run two returned calls share a row exactly for one pair, if and only if every unkeyed DIRECT row already holds two members |
| `Direct.StumpFails` | apps/api/src/controllers/chat.controller.ts:306-314 | a keyed row short of a member makes one of two concurrent calls fail |
| `Direct.OneRowAndNoneFailsExactly` | apps/api/src/controllers/chat.controller.ts:291-422 | and no call fails either, if and only if in addition no keyed row makes the fast path insert a member |
| `Opening.AloneExactly` | apps/api/src/controllers/chat.controller.ts:291-443 | an undisturbed call returns the row with the pair's key, a missing member put in; else the oldest unkeyed DIRECT row without strangers, stamped and completed; else a new row; and no other row changes |
| `Opening.KeptExactly` | apps/api/src/controllers/chat.controller.ts:291-397 | in every run without shells a call is returned a row from before it if and only if its pair had one then, keyed or not, and that one was the pair's |
| `Group.ChatController.CreateConversation` | apps/api/src/controllers/chat.controller.ts:254-296 | refusals in the controller's order; the creator is the only ADMIN of a new group |
| `Group.ChatController.AddMembers` | apps/api/src/controllers/chat.controller.ts:500-558 | refusals, then newcomers as ordinary members with duplicates skipped |
| `Group.ChatController.RemoveMember` | apps/api/src/controllers/chat.controller.ts:566-649 | refusals, removal, and the promotion loop |
| `Group.ChatController.DeleteConversation` | apps/api/src/controllers/chat.controller.ts:159-214 | refusals, idempotent absence, tombstone with the member snapshot |
| `Group.CreatingExactly` | apps/api/src/controllers/chat.controller.ts:254-296 | when a creation is done, and that the members are the named ones with the creator alone an ADMIN |
| `Group.AddingExactly` | apps/api/src/controllers/chat.controller.ts:500-558 | adding is done exactly for an ADMIN of a live group naming known users; they are all members then, newcomers as ordinary ones, and no other row changes |
| `Group.RemovingExactly` | apps/api/src/controllers/chat.controller.ts:566-649 | removing is done exactly when a member leaves or an ADMIN removes one, others stay and a human can take over from the only ADMIN; exactly that member goes |
| `Group.DeletingExactly` | apps/api/src/controllers/chat.controller.ts:159-214 | deleting is done exactly by an ADMIN of a live group; what is gone already is reported absent |
| `Group.SingleAdmin` | apps/api/src/controllers/chat.controller.ts:424-443 | over every run each group has exactly one ADMIN, and the last notice about a conversation is its membership with roles, or its member ids once it is deleted |
| `Group.Succession` | apps/api/src/controllers/chat.controller.ts:602-640 | removal is refused exactly when the only admin would leave bots alone; otherwise the longest-standing human takes over and no other row changes |
| `Group.RefusedChangesNothing` | apps/api/src/controllers/chat.controller.ts:500-649 | a call that is not Done leaves everything; one that is announces itself exactly once |
| `Group.MembershipFrozen` | apps/api/src/controllers/chat.controller.ts:590-598 | tombstoned groups and DIRECT rows never change again |
| `Lifecycle.MessageLifecycleStore.Send` | apps/mobile/src/features/messaging/message-lifecycle.ts:56-71 | up to the await: pending and published, or queued with an armed timer |
| `Lifecycle.MessageLifecycleStore.FlushQueued` | apps/mobile/src/features/messaging/message-lifecycle.ts:74-88 | up to the first await, the rest of the snapshot held |
| `Lifecycle.MessageLifecycleStore.Settle` | apps/mobile/src/features/messaging/message-lifecycle.ts:64-87 | what follows an awaited publish, resolved or rejected, up to the next await |
| `Lifecycle.MessageLifecycleStore.Retry` | apps/mobile/src/features/messaging/message-lifecycle.ts:115-125 | the same id and payload published again unless already pending |
| `Lifecycle.MessageLifecycleStore.Reconcile` | apps/mobile/src/features/messaging/message-lifecycle.ts:91-96 | the entry and its timer are gone, the row is stored, and every other entry, timer and row is as it was |
| `Lifecycle.MessageLifecycleStore.ApplyHistory` | apps/mobile/src/features/messaging/message-lifecycle.ts:98-104 | rows already held are never replaced |
| `Lifecycle.HistoryNeverReplaces` | apps/mobile/src/features/messaging/message-lifecycle.ts:98-104 | a reconciled row survives every history response; other rows come in |
| `Lifecycle.ReconciledForGoodExactly` | apps/mobile/src/features/messaging/message-lifecycle.ts:74-96 | after reconciling, the entry never comes back short of sending its id again, if and only if no flush under way still held it |
| `Lifecycle.StaleFlushRevives` | apps/mobile/src/features/messaging/message-lifecycle.ts:74-96 | a run in which a flush shows a delivered message as pending again |
| `Lifecycle.NoStuckSend` | apps/mobile/src/features/messaging/message-lifecycle.ts:56-147 | in every interleaving a queued or pending entry has an armed timer or a publish in flight, and all publishes of an id carry one payload |
| `Lifecycle.EverySendSettles` | apps/mobile/src/features/messaging/message-lifecycle.ts:56-147 | settling publishes and firing timers, in any order, end within a bound, and then every entry left is failed |
| `Cascade.RuleEngine.ExecuteActions` | apps/bot-worker/src/rule-engine.ts:196-264 | the commands a fired rule publishes, in order |
| `Cascade.RuleEngine.ProcessEvent` | apps/bot-worker/src/rule-engine.ts:99-174 | matched rules and published commands of exactly the rules not skipped, triggered by the event's type or command, meeting their conditions and not cooling down for its sender (the data's own, else the envelope's actor), whose cooldowns begin |
| `Cascade.EngineIssues` | apps/bot-worker/src/rule-engine.ts:217-304 | a command is published, now or by the scheduler, if and only if an action of a fired rule issues it |
| `Firing.CommandsExactly` | apps/bot-worker/src/rule-engine.ts:111-130 | a message is a command exactly when its first word after the slash is it up to case |
| `Firing.FiresExactly` | apps/bot-worker/src/rule-engine.ts:99-166 | a rule fires exactly when its trigger and conditions are met, its bot may listen and its cooldown for the sender, reactor or reader, else the actor, is not running; exactly those cooldowns begin |
| `Firing.PublishesExactly` | apps/bot-worker/src/rule-engine.ts:217-304 | the published commands are exactly what actions of fired rules ask for: their rendered text or scheduled text if it is worth sending, or their reaction |
| `Firing.PublishesInOrder` | apps/bot-worker/src/rule-engine.ts:196-214 | they come bot by bot, rule by rule and action by action |
| `Firing.MatchesExactly` | apps/bot-worker/src/rule-engine.ts:99-174 | the matched rules are the fired ones, each once, in table order |
| `Echo.CascadeBounded` | apps/bot-worker/src/rule-engine.ts:99-174 | a table in which no text keeps a cascade going for more than d messages in a row answers one event within limits that grow by a factor A(1+E) per level, in every interleaving |
| `Echo.EchoFreeSettles` | apps/bot-worker/src/rule-engine.ts:106-130 | in a table that does not echo no text keeps a cascade going for more messages in a row than there are rules |
| `Echo.CascadeStops` | apps/bot-worker/src/rule-engine.ts:106-107 | with no bot allowing bot messages at most A(1+E) actions run |
| `Endless.CooldownThrottles` | apps/bot-worker/src/rule-engine.ts:155-166 | whatever the table, at most A actions per sender involved and A more per expired cooldown |
| `Endless.EchoNeverStops` | apps/bot-worker/src/rule-engine.ts:106-304 | an echoing table passes every bound from a user's message in a reachable database, each rule firing on its own trigger and every cooldown waited for |
| `Endless.BoundedExactly` | apps/bot-worker/src/rule-engine.ts:99-304 | the cascades of a table are bounded if and only if no rules lead back among themselves through messages sent now, on schedule or in answer to a reaction |
| `Endless.ScheduledEchoes` | apps/bot-worker/src/rule-engine.ts:292-304 | an allowing bot that schedules an answer to every message echoes |
| `Endless.PingPongSettles` | apps/bot-worker/src/rule-engine.ts:111-130 | an allowing bot that answers a command with a text that is none does not |
| `Chips.AggregateChips` | apps/mobile/src/features/messaging/message-rows.ts:113-126 | the map loop and the sort compute the chips |
| `Chips.AggregateMeaning` | apps/mobile/src/features/messaging/message-rows.ts:113-126 | ranked, one chip per used emoji with its count and whether one is mine |
| `Chips.CountsSum` | apps/mobile/src/features/messaging/message-rows.ts:113-126 | chip counts add up to the number of reactions |
| `Chips.ChipsOfBag` | apps/mobile/src/features/messaging/message-rows.ts:124-125 | chips depend only on the multiset of reactions |
| `Rows.FixEnds` | apps/mobile/src/features/messaging/message-rows.ts:194-208 | the in-place second pass, unaffected by its own earlier writes |
| `Rows.BuildChatRows` | apps/mobile/src/features/messaging/message-rows.ts:141-229 | pending entries newest first, then the same rows as the web builder |
| `Rows.BuildWebRows` | apps/web/src/lib/message-rows.ts:70-149 | the two passes with a reused chip map give the same rows |
| `Rows.TwoPasses` | apps/mobile/src/features/messaging/message-rows.ts:150-208 | fixing what the first pass pushed gives every run end its place |
| `Rows.RowsAreTranscriptReversed` | apps/mobile/src/features/messaging/message-rows.ts:150-192 | the message rows are the transcript newest first, each by the rules for its message |
| `Rows.BuiltAt` | apps/mobile/src/features/messaging/message-rows.ts:150-208 | where each message's row stands among the built rows, with its separator right before it |
| `Rows.RowExactly` | apps/mobile/src/features/messaging/message-rows.ts:150-192 | a built row says whose message it is, where its run starts and ends by sender and five minutes, whether to name the sender, the latest message it answers, its chips and whether it was read |
| `Rows.SeparatedExactly` | apps/mobile/src/features/messaging/message-rows.ts:164-191 | right before it stands the separator exactly when it opens a day with a label, otherwise the next message's row |
| `Rows.RunsBracketed` | apps/mobile/src/features/messaging/message-rows.ts:155-162 | startsGroup and endsGroup of the built rows bracket exactly the maximal runs, and every message is in one |
| `Rows.RunsDisjoint` | apps/mobile/src/features/messaging/message-rows.ts:155-162 | two maximal runs that share a message are the same run |
| `Rows.DayBreakEndsRunExactly` | apps/mobile/src/features/messaging/message-rows.ts:194-208 | in the rows the two passes build around a day break, with its separator in place, the older row ends a run if and only if the two messages do not group |
| `Rows.DayBreakInsideRun` | apps/mobile/src/features/messaging/message-rows.ts:194-208 | the built rows of two messages around midnight: a separator between them and one run |
| `Rows.SeparatorPlace` | apps/mobile/src/features/messaging/message-rows.ts:164-191 | each separator is followed, newest first, by the row of the message that opens its day |
| `Presence.PresenceRepository.AddConnection` | packages/redis/src/index.ts:46-52 | key and set membership added, changed exactly for a new device |
| `Presence.PresenceRepository.RemoveConnection` | packages/redis/src/index.ts:55-76 | key and membership removed, the emptied set dropped, changed exactly when one was there |
| `Presence.PresenceRepository.HandlePresenceSet` | apps/chat-worker/src/handlers/presence.ts:17-94 | an event exactly on a transition, with the count after it |
| `Presence.PresenceConserved` | apps/chat-worker/src/handlers/presence.ts:30-93 | over every run: keys match sets, each device's events alternate from online, every event's count is its user's online minus offline events |
| `Presence.ConnectedExactly` | apps/chat-worker/src/handlers/presence.ts:30-65 | after any run a device has its key and is in its user's set if and only if the last command that named it said online |
| `Presence.EmitsExactly` | apps/chat-worker/src/handlers/presence.ts:30-93 | a command emits one event exactly when it turns what the device's previous command said; the event says what the command said and counts the user's online devices |
| `Presence.LastSeenExactly` | packages/redis/src/index.ts:63-71 | a last-seen time is there exactly once an offline command left no device of the user online |
| `Hash.RoundIsExact` | packages/realtime-core/src/user-presentation.ts:35-36 | every intermediate is below 2^53 and the round is 33 * hash + c modulo 2^32 |
| `Hash.HashIdentityKey` | packages/realtime-core/src/user-presentation.ts:32-39 | the hash is 5381 * 33^n plus the sum of c_i * 33^(n-1-i), modulo 2^32, for every key |
| `Hash.AvatarPaletteIndex` | packages/realtime-core/src/user-presentation.ts:42-44 | the index is in range and is that value modulo 8 |

## Left out

- Identifiers are numbers (strings where their characters matter: pair keys, group members, hashed keys); timestamps other than createdAt, previews, titles and metadata are not modelled.
- It is assumed that the createdAt order of the outbox is its commit order. The stamp is taken before the commit, so concurrent transactions can be stamped the other way round. All topics are one ordered stream, as one publisher session produces it.
- Outbox.OutboxPublisher.ProcessBatch: does not model the polling timer, tick's overlap flag or stop's final drain; a failed row update after an acknowledged publish counts as a crash.
- The reads a handler awaits before its transaction are one step of a run, although other commands can commit between them.
- Worker.ChatWorker.Stop: sets the flag only; leaving the shared subscription and the bounded wait for handlers in flight are not modelled.
- Worker runs keep the members of a conversation fixed after its creation; membership events replace `members` wholesale at the clients, so watermark results are about receipts and snapshots.
- Projection.LogIsState: is about live conversations: rows of a tombstoned conversation, where bots may still write, are only shown to be stored rows.
- Mobile is modelled row by row and entry by entry, not as a store: its buffering, reconnect heal, list order by activity and upsertConversationInto's use outside events are not modelled.
- WebClient.Client.HandleEvent: does not model pending optimistic sends, typing, presence, rejected sends, member-joined, member-left or conversation.updated events.
- Replacing loads (setMessages on load retry and on an empty reconnect) are outside the transcript-union results; `History.Reconnect` includes the empty reconnect as a definition only.
- Direct.OneRowExactly: starts after body validation, takes user rows as fixed, and reads strings by code points where JavaScript sorts by UTF-16 code units.
- Group.SingleAdmin: takes each endpoint call as one step, as removeMember reads members before its transaction; user deletion and seeded data are not part of it.
- Lifecycle.NoStuckSend: excludes dispose and takes it from the callers that an id is drawn fresh per message.
- Endless.BoundedExactly: conditions and the values of placeholders are free outcomes of every step, so a table is called unbounded when some of them make it so; letters beyond ASCII keep their case and only ASCII blanks end a command word. Each scheduled job is taken to send once; recurring jobs and retries of the scheduler are not modelled.
- Cascade.RuleEngine.ProcessEvent: handles one event at a time, each once; http_request, publish_event, delay and the state actions publish nothing the chat worker handles. The programmatic responders act as one more bot that allows no bot messages and are not a separate part of the model.
- Rows take createdAt as valid; the calendar day and the label of a timestamp are parameters. Media info of pending rows is not modelled.
- Presence commands are atomic and crash-free; activity and last-seen times are not modelled.
- Prisma, PostgreSQL, Redis, EMQX and mqtt.js are modelled only as unique indexes, atomic transactions, row locks, sets and an at-least-once broker. The gateway, media, screens, schemas, administration, the bot scheduler's claiming and the Redis unread counter are not modelled.
