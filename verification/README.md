# Hedera social platform: verified models

The platform keeps fast pictures of slower or larger things: PostgreSQL rows of a consensus topic, presence entries of
connected sockets, owner and member rows of an organization, a typing flag of a timer. These Dafny modules model how
each picture is kept and prove when it agrees with what it stands for: on every run, under failures, and, where it can
disagree, under exactly which condition.

`dafny verify dfyconfig.toml` checks everything.

## How the models are built

Each part has a specification on values (a state, its steps, and functions for what a step does), theorems about that
specification over all runs, and a class whose methods change fields as the services do and are proved against the
same functions.

- **Message index** (`Ledger`, `MessageIndex`, `SyncProtocol`, `IndexCompleteness`, `LastMessage`, `Placeholders`,
  `SerialSync`, `Attribution`, `SyncRefinement`, `MessagingService`, `ServiceSync`). One topic: an append-only ledger,
  index rows under the unique constraint on topic and sequence number, submissions in flight, and any number of sync
  workers interleaved at every awaited call (cursor query, load of the conversation, fetch, existence check,
  placeholder search, write, save), with failure at each and restarts of the process. `SyncRefinement` and
  `ServiceSync` show that the service's one-piece sync is a run of this protocol. A row is named by its place in
  insertion order. The mirror's answer is the ascending, contiguous run of at most 100 messages after the cursor.
- **Conversations** (`Membership`, `Conversations`, `DirectConversations`, `ConversationsService`,
  `OperationRefinement`, `KeyDelivery`, `Unread`). Members, roles and key rotations on top of the same topic. A send,
  an add, a removal, a leave, a rotation and a read are each suspended at every awaited call that reads or writes what
  they depend on, so that any number of them interleave, and any may fail there. Over the whole platform a creation
  searches in two queries and saves in two.
- **Paging** (`Paging`, `MessagePaging`, `NotificationPaging`). One theory of cursors over a newest-first list, used
  twice.
- **Presence** (`Presence`, `PresenceProtocol`, `PresenceExactness`, `SerialPresence`, `PresenceRefinement`,
  `PresenceRuns`, `ChatGateway`). The gateway's two maps and the presence hashes. Joins, leaves and disconnects are
  suspended at every awaited call: the membership check, the write of an entry, each look-up and each deletion of a
  disconnect, and each broadcast are steps of their own, and each call may fail. The membership check of a join is a
  parameter; it finds no member for a token without an account, because no membership row has an empty one.
- **Organizations** (`Organizations`, `OrganizationCalls`, `OrganizationOwnership`, `Invitations`,
  `OrganizationService`). Calls run one at a time; those that save twice may stop in between.
- **Keys and messages** (`Base64`, `WebBase64`, `KeyBundles`, `WebMessages`, `TopicKeys`). Base64 and both decoders
  are modelled in full; the box, the cipher and the text encoding are parameters, assumed only to invert, and an
  instance shows that the assumption can be met.
- **Typing** (`Typing`, `ChatInput`), **notifications** (`Notifications`), **read receipts** (`ReadReceipts`,
  `Decimal`, `WhiteSpace`).

Some state is history that no operation reads: an entry's `origin`, a topic's `mark` and `events`, a conversation's
`stale`, an organization's `removals`, `joins` and `clock`, the `ops` of the notification and receipt tables. Random
values, new ids, times and the outcomes of awaited calls are parameters.

## Where code and comments disagree

The models follow the code.

- The sync says that a message's JSON names its real sender (messaging.service.ts:376-377), but `sendMessage` submits
  an encrypted payload (149-160), so the sync attributes it to the payer. The sender's placeholder is then not
  adopted; if the sync comes before the confirmation, the placeholder stays at 0 for good and refuses every later send
  of the topic (`Placeholders`).
- `removeParticipant` lists a guard for the last admin (conversations.service.ts:675) that the code does not have. A
  removal of oneself also ends in an error after everything was saved, because the reply is built for a requestor who
  is no longer a member.
- `leaveConversation` accepts a topic id (conversations.service.ts:760-768) but then looks members up by the raw
  argument, so only the conversation's own id works; the model addresses conversations by that id.
- `lastMessageSeq` moves only when a sync found a message the index lacked (messaging.service.ts:474-485). Messages
  that were confirmed first are not counted as unread.
- `markAsRead` stores 9999999 when there is no synced message (conversations.service.ts:1021), which hides later
  messages.
- `getMessages` hands out the cursor "0" for a placeholder and ignores it when it comes back
  (messaging.service.ts:289).
- Notification cursors drop the microseconds of a creation time (notifications.service.ts:377-378).
- A leave removes the account's presence entry whichever socket wrote it (chat.gateway.ts:506), and so does a
  disconnect whose entry was overwritten between its look-up and its deletion (chat-redis.service.ts:195-200).

## Model

| member | source | states |
|---|---|---|
| `Ledger.PendingOf` | packages/api/src/modules/messaging/messaging.service.ts:397-403 | the placeholder search finds a row of the sender at 0 whenever there is one, and only such a row |
| `Ledger.DetectKind` | packages/api/src/modules/messaging/messaging.service.ts:414-452 | a stored type is always one of the five, and the tagged one when that is known |
| `Ledger.UpdateSeq` | packages/api/src/database/entities/message-index.entity.ts:4 | of a table that meets the unique constraint, exactly those updates go through that keep it |
| `Ledger.InsertRow` | packages/api/src/database/entities/message-index.entity.ts:4 | of a table that meets the unique constraint, exactly those inserts go through that keep it, so at most one placeholder at a time |
| `MessageIndex.SyncIndexesItsBatch` | packages/api/src/modules/messaging/messaging.service.ts:363-472 | a sync indexes every message of its batch and nothing outside it, keeps numbers unique, and changes no number already given |
| `MessageIndex.SyncIsIdleIffCovered` | packages/api/src/modules/messaging/messaging.service.ts:367-375 | a sync changes no row if and only if its batch is indexed already |
| `MessageIndex.SyncIsIdempotent` | packages/api/src/modules/messaging/messaging.service.ts:334-488 | repeating a sync from the same cursor on an unchanged ledger changes neither rows nor marks |
| `MessageIndex.LastMessageSeqMovesIff` | packages/api/src/modules/messaging/messaging.service.ts:474-485 | lastMessageSeq moves, and then to the end of the batch, exactly when the batch holds an unindexed message and ends above it; it never moves back |
| `MessageIndex.SyncConverges` | packages/api/src/modules/messaging/message-sync.service.ts:71-95 | on a ledger that no longer grows the cursor is at the end after ceil(remaining / 100) rounds and not before, with everything above the first cursor indexed |
| `SyncProtocol.StepKeepsSound` | packages/api/src/modules/messaging/messaging.service.ts:166-204 | every step of sends, confirmations, failures and any number of interleaved syncs keeps numbers unique, within the ledger, and submissions tied to their own rows |
| `SyncProtocol.RunsAreSound` | packages/api/src/modules/messaging/messaging.service.ts:360-487 | the same on every run from any sound state: positive numbers denote ledger entries, at most one row holds 0, no mark passes the ledger |
| `SyncProtocol.AnythingMayFail` | packages/api/src/modules/messaging/messaging.service.ts:201-206 | at every point of every run a submission, a worker's call or the process may fail, which loses what was under way and no row |
| `SyncProtocol.WorkersCanGoOn` | packages/api/src/modules/messaging/message-sync.service.ts:71-105 | and no worker is ever stuck: wherever it is suspended it has a next step of its own |
| `SyncProtocol.BatchesAreWhole` | packages/api/src/modules/messaging/messaging.service.ts:352-363 | a worker fetches at most 100 messages that the ledger has, right after its cursor, and finishes only when it has dealt with each |
| `IndexCompleteness.StepKeepsInv` | packages/api/src/modules/messaging/messaging.service.ts:360-472 | one harmless step, at any interleaving, keeps the index complete between start mark and cursor and behind every running worker, and every number in place |
| `IndexCompleteness.IndexIsComplete` | packages/api/src/modules/messaging/messaging.service.ts:166-472 | on every harmless run each number above the start mark and up to the cursor has exactly one row, and no positive number ever changes |
| `IndexCompleteness.HarmlessIsExact` | packages/api/src/modules/messaging/messaging.service.ts:405-412 | the condition on an adoption is exact: it holds if and only if no continuation of the sends under way can move a number afterwards |
| `IndexCompleteness.PairingSuffices` | packages/api/src/modules/messaging/messaging.service.ts:396-412 | when each adopted message is the placeholder's own submission, every run is harmless |
| `IndexCompleteness.NewTopicSatisfiesInv` | packages/api/src/modules/messaging/message-sync.service.ts:73-80 | a new topic satisfies the invariant the run theorems start from |
| `IndexCompleteness.UnpairedRunLosesAMessage` | packages/api/src/modules/messaging/messaging.service.ts:187-204 | a concrete run without pairing: a confirmation carries an adopted row off its number and message 1 stays below the cursor unindexed |
| `LastMessage.StepKeepsMarkIndexed` | packages/api/src/modules/messaging/messaging.service.ts:474-487 | one harmless step, at any interleaving, keeps the last-message mark an indexed number with everything between start mark and it indexed, even where it is above the cursor |
| `LastMessage.LastMessageIsIndexed` | packages/api/src/modules/messaging/messaging.service.ts:474-487 | the same on every harmless run |
| `Attribution.StepKeepsAttributed` | packages/api/src/modules/messaging/messaging.service.ts:376-412 | every step of the interleaved protocol keeps each numbered row either the message's own submission or a row of the sender that the message names, or of the payer where it names none |
| `Attribution.RunsKeepAttributed` | packages/api/src/modules/messaging/messaging.service.ts:376-472 | the same on every run: no interleaving of sends, confirmations and syncs puts a message on somebody else's row |
| `Attribution.NewMessageIsFiled` | packages/api/src/modules/messaging/messaging.service.ts:367-472 | a message that the index lacks goes to a placeholder of its sender, with nothing else about that row changed, or else to one new row with its sender and type |
| `Placeholders.SendIsAcceptedIff` | packages/api/src/modules/messaging/messaging.service.ts:166-184 | a send is accepted exactly when the topic has no placeholder, and reaches no ledger otherwise |
| `Placeholders.UndisturbedSendIsNumbered` | packages/api/src/modules/messaging/messaging.service.ts:166-198 | with nothing in between, a send adds one row of the sender, which gets the number at which its message reaches the ledger |
| `Placeholders.ConfirmNumbersIff` | packages/api/src/modules/messaging/messaging.service.ts:187-204 | a confirmation numbers its placeholder exactly when no other row took the number; otherwise the placeholder is stranded |
| `Placeholders.SyncBeforeConfirm` | packages/api/src/modules/messaging/messaging.service.ts:375-403 | when a sync meets the message first, the row gets its number exactly when the message is attributed to its sender |
| `Placeholders.StrandedPlaceholderBlocksSends` | packages/api/src/modules/messaging/messaging.service.ts:184 | until some worker adopts it, a stranded placeholder makes every send on every run fail |
| `Placeholders.SealedTrafficNeverFreesAPlaceholder` | packages/api/src/modules/messaging/messaging.service.ts:149-160 | with nothing on the ledger attributed to its sender, which is how encrypted payloads look, a stranded placeholder stays for good |
| `SerialSync.StepKeepsTiledIff` | packages/api/src/modules/messaging/message-sync.service.ts:73-95 | at any interleaving, the events go on running from start mark to cursor exactly when a publication is empty or starts at the cursor, and a seed precedes all events and is not below the start mark |
| `SerialSync.ContinuedRunsTile` | packages/api/src/modules/messaging/message-sync.service.ts:87-95 | on every run of such steps, however many syncs overlap, the events tile start mark to cursor, each message in exactly one |
| `SerialSync.StepKeepsMarksIff` | packages/api/src/modules/messaging/messaging.service.ts:480-487 | a step moves no mark back exactly unless a publication or seed falls behind the cursor, or a batch that loaded an older last-message mark finishes below the present one |
| `SerialSync.MarksAdvanceAlongIff` | packages/api/src/modules/messaging/messaging.service.ts:480-487 | the marks only advance along a run exactly when each of its steps meets that condition |
| `SerialSync.SerialSyncsTileTheLedger` | packages/api/src/modules/messaging/message-sync.service.ts:71-100 | with one sync at a time both conditions hold: cursor and last-message mark never move back, and the emitted intervals tile start mark to cursor |
| `SerialSync.PublicationMovesBackIff` | packages/api/src/modules/messaging/message-sync.service.ts:87-95 | a publication moves the cursor back exactly when another worker has published past its batch |
| `SerialSync.OverlappingSyncsMoveTheCursorBack` | packages/api/src/modules/messaging/message-sync.service.ts:73-95 | a concrete run of two overlapping syncs that moves the cursor back and announces a message twice |
| `SyncRefinement.LoopRuns` | packages/api/src/modules/messaging/messaging.service.ts:363-472 | the loop over a batch is a run of the protocol's single steps |
| `SyncRefinement.UndisturbedSyncIsARun` | packages/api/src/modules/messaging/message-sync.service.ts:71-105 | a whole undisturbed sync, cursor to event, is a run of the protocol and ends in the state of the atomic sync |
| `SyncRefinement.RoundsAreARun` | packages/api/src/modules/messaging/message-sync.service.ts:71-105 | any number of undisturbed rounds on a ledger that does not grow is a run, with the store and cursor that the batches add up to |
| `SyncRefinement.QuietSyncsConverge` | packages/api/src/modules/messaging/message-sync.service.ts:71-105 | ceil(remaining / 100) rounds are a run that ends with the cursor at the end of the ledger and everything above the start indexed |
| `MessagingService.IndexMessage` | packages/api/src/modules/messaging/messaging.service.ts:367-470 | one pass of the loop: skip, adopt or insert, and whether the message was new |
| `MessagingService.IndexBatch` | packages/api/src/modules/messaging/messaging.service.ts:360-487 | the loop computes the rows, the count of new messages and the mark of the batch specification |
| `MessagingService.Messaging.SendMessage` | packages/api/src/modules/messaging/messaging.service.ts:85-208 | each rejection with its error and nothing changed; otherwise one placeholder with its submission started |
| `MessagingService.Messaging.ConfirmSubmission` | packages/api/src/modules/messaging/messaging.service.ts:189-198 | the continuation numbers the row, or does nothing when the number is taken |
| `MessagingService.Messaging.SyncFromMirrorNode` | packages/api/src/modules/messaging/messaging.service.ts:334-495 | the tables become those of one batch, the result is the batch's end; unknown topic and unreachable mirror change nothing |
| `MessagingService.Messaging.GetLastSyncedSequence` | packages/api/src/modules/messaging/messaging.service.ts:505-512 | the highest indexed number, 0 for none |
| `MessagingService.StartCursor` | packages/api/src/modules/messaging/message-sync.service.ts:75-80 | a sync starts at the cached cursor; with none cached, at the topic's highest indexed number, or 0 for none |
| `MessagingService.SyncIsOfOneTopic` | packages/api/src/modules/messaging/message-sync.service.ts:71-105 | a sync of a known topic that is served indexes, of the 100 messages after its start, those that are served and no other, keeps every number, and emits one event exactly when there were any; other topics and failed syncs change no table |
| `MessagingService.MessageSync.SyncConversation` | packages/api/src/modules/messaging/message-sync.service.ts:71-105 | tables, cursor and events after one sync; the cursor is cached even when the sync fails, and it moves, with one event, exactly when the sync got further |
| `ServiceSync.ServiceSyncsUndisturbed` | packages/api/src/modules/messaging/message-sync.service.ts:71-105 | for each topic the service's sync starts where the protocol's does and leaves tables, cursor and events as the protocol's undisturbed sync |
| `ServiceSync.ServiceSyncIsARun` | packages/api/src/modules/messaging/message-sync.service.ts:71-105 | so it is a run of the interleaved protocol, to which its theorems apply |
| `MessagingService.MessageSync.SyncAllConversations` | packages/api/src/modules/messaging/message-sync.service.ts:44-59 | every topic is synced in turn, whatever failed before it: tables, cursors and events |
| `MessagingService.TopicsSyncIndependently` | packages/api/src/modules/messaging/message-sync.service.ts:52-54 | after the scheduled job each topic, cursor and events included, is as if it alone had been synced |
| `Paging.EffectiveLimit` | packages/api/src/modules/messaging/messaging.service.ts:276-279 | the page size is the one of 1..100 that is nearest to the requested limit |
| `Paging.FollowingMeetsAllIff` | packages/api/src/modules/messaging/messaging.service.ts:286-311 | following cursors meets every item once and in order exactly when every page boundary falls between two cursors, and misses items otherwise |
| `MessagePaging.GetMessagesAnswers` | packages/api/src/modules/messaging/messaging.service.ts:276-317 | for every index, limit and cursor handed out: the newest rows below the cursor, as many as the limit allows, oldest first, with hasMore exactly when one is left out, and the lowest number as the cursor |
| `MessagePaging.PageIs` | packages/api/src/modules/messaging/messaging.service.ts:296-317 | a page holds the next rows below its bound, oldest first, and its cursor stands for the position after them |
| `MessagePaging.PagesGiveEveryRowOnce` | packages/api/src/modules/messaging/messaging.service.ts:276-317 | for every limit and index, a client that asks again with each cursor and prepends the answers ends with every row once, ascending, a placeholder first |
| `MessagePaging.OwnCursorRestartsIff` | packages/api/src/modules/messaging/messaging.service.ts:287-311 | a page hands out a cursor that restarts from the newest page exactly when its oldest row is a placeholder; only a last page does |
| `MessagePaging.CursorZeroRestarts` | packages/api/src/modules/messaging/messaging.service.ts:287-294 | the cursor "0" is ignored and restarts from the newest page |
| `MessagePaging.OtherCursors` | packages/api/src/modules/messaging/messaging.service.ts:287-294 | spaces, a plus sign and trailing text make no difference to a cursor; an empty, negative or non-numeric one restarts from the newest page |
| `Membership.AddIsRefusedIff` | packages/api/src/modules/messaging/conversations.service.ts:535-587 | each ground on which an add is refused, in the order of the checks; with none of them only the newcomer's row changes |
| `Membership.RemoveIsRefusedIff` | packages/api/src/modules/messaging/conversations.service.ts:687-735 | the same for a removal |
| `Membership.JoinAddsOne` | packages/api/src/modules/messaging/conversations.service.ts:589-607 | a first join starts now, unread; a rejoin keeps its join time and read mark; both as a plain member, and nobody else's row changes |
| `Membership.AddKeepsAdmin` | packages/api/src/modules/messaging/conversations.service.ts:559-607 | with nothing in between, adding or readmitting a member adds exactly that account to the active ones and never costs the conversation its admin |
| `Membership.RemoveKeepsAdminIff` | packages/api/src/modules/messaging/conversations.service.ts:699-735 | with nothing in between, a removal keeps an admin exactly when the requestor removes someone else, or another admin stays, or nobody does |
| `Membership.SelfRemovalOrphansAGroup` | packages/api/src/modules/messaging/conversations.service.ts:675 | the last-admin guard that the comment promises is missing: a sole admin removes themselves and leaves a group with no admin |
| `Membership.LeaveKeepsAdmin` | packages/api/src/modules/messaging/conversations.service.ts:785-821 | leaving keeps an admin, removes exactly the leaver, and makes exactly the heir an admin when one is needed |
| `Conversations.StepProjects` | packages/api/src/modules/messaging/conversations.service.ts:636-641 | every conversation step is, on the topic, one step of the sync protocol or none |
| `Conversations.AnythingMayFail` | packages/api/src/modules/messaging/conversations.service.ts:650-658 | at every point any call may fail or the process restart, which loses what was under way and nothing that was saved |
| `Conversations.RotationStartsIff` | packages/api/src/modules/messaging/conversations.service.ts:611-632 | the rotation after an add reads the members and goes on whoever is active; the one after a departure goes on exactly when somebody is |
| `Conversations.StoredKeysAreOnTheLedger` | packages/api/src/modules/messaging/conversations.service.ts:633-658 | on every run, failures at any call included, the stored key id and bundles were submitted together before, and every member's message follows an exchange that includes the member |
| `Conversations.CreatedIsSound` | packages/api/src/modules/messaging/conversations.service.ts:158-216 | what createConversation saves satisfies this from the start |
| `Conversations.ConversationIndexIsComplete` | packages/api/src/modules/messaging/messaging.service.ts:360-487 | index completeness, up to the cursor and up to the last-message mark, holds through membership operations and rotations on every harmless run |
| `Conversations.PairedTracesAreHarmless` | packages/api/src/modules/messaging/messaging.service.ts:396-412 | where each adopted message is the placeholder's own submission, every run of a conversation is harmless |
| `Conversations.SendGoesThroughIff` | packages/api/src/modules/messaging/messaging.service.ts:105-184 | with nothing in between, a send has an effect exactly when its sender is active, holds a bundle of the stored key, and the topic has no placeholder |
| `Conversations.StoredKeysNameOnceActiveMembers` | packages/api/src/modules/messaging/conversations.service.ts:613-646 | with operations interleaved, the stored bundles name the members active when their rotation read them |
| `Conversations.StepKeepsAdminIff` | packages/api/src/modules/messaging/conversations.service.ts:559-821 | with every check and every save of adds, removals and leaves a step of its own, a step keeps an active admin exactly when a saved newcomer finds another account an admin, and a departure, wherever it was decided, leaves an admin or nobody |
| `Conversations.RunsKeepAdminIff` | packages/api/src/modules/messaging/conversations.service.ts:559-821 | on every interleaving, failures included, an active member implies an active admin throughout if and only if each save of a newcomer and each departure met that condition |
| `Conversations.MutualRemovalOrphansAGroup` | packages/api/src/modules/messaging/conversations.service.ts:699-735 | a run of two admins who remove each other: both checks pass, both departures are saved, and a member stays behind with no admin |
| `Conversations.AddAfterTheLastAdminLeft` | packages/api/src/modules/messaging/conversations.service.ts:559-607 | a run of an add that is checked, then outlived by its requestor, the only admin: the newcomer is saved into a group with no admin |
| `Conversations.TookTheActiveIff` | packages/api/src/modules/messaging/conversations.service.ts:839-871 | a rotation that comes to be saved wraps the key for exactly the members that were active where it read them, so what it saves is current if and only if the same members are active at both points |
| `Conversations.StepKeepsKeysCurrentIff` | packages/api/src/modules/messaging/conversations.service.ts:861-871 | the stored bundles stay those of the active members, unless a rotation is owed, exactly when a rotation that is saved had taken the members active then |
| `Conversations.RunsKeepKeysCurrentIff` | packages/api/src/modules/messaging/conversations.service.ts:839-871 | on every interleaving, failures included, they do so throughout if and only if, for each rotation saved, who was active where it read the members is active where it is saved |
| `Conversations.OverlappingRotationsSaveOldKeys` | packages/api/src/modules/messaging/conversations.service.ts:861-871 | a rotation that took the members before a removal, and is saved after it, leaves bundles that are out of date |
| `Conversations.SerialRunsKeepAdminsAndKeys` | packages/api/src/modules/messaging/conversations.service.ts:525-882 | with one member change at a time, nobody removing themselves, and failure anywhere both conditions are met: an active member implies an active admin, and after a rotation that went through the stored bundles name exactly the active members |
| `Conversations.CreatedIsSerial` | packages/api/src/modules/messaging/conversations.service.ts:219-240 | a conversation as created satisfies the invariant of those runs, also when its members were not saved |
| `Conversations.FoundingIs` | packages/api/src/modules/messaging/conversations.service.ts:219-240 | a created conversation has exactly the participants as active members, the founder its only admin, everyone joined now and unread |
| `Conversations.ConcurrentLeavesOrphanAGroup` | packages/api/src/modules/messaging/conversations.service.ts:785-821 | a run of two admins leaving at once, who each see the other: the group is left with no admin |
| `DirectConversations.StepKeepsDirectsUniqueIff` | packages/api/src/modules/messaging/conversations.service.ts:109-240 | with the searches and the saves of creations interleaved, a step keeps direct conversations unique exactly when the rows of a direct conversation are saved while its two accounts share none |
| `DirectConversations.RunsKeepDirectsUniqueIff` | packages/api/src/modules/messaging/conversations.service.ts:109-240 | on every interleaving, failures included, two accounts are both active in at most one direct conversation throughout if and only if each save of rows met that condition |
| `DirectConversations.DirectsAreUnique` | packages/api/src/modules/messaging/conversations.service.ts:109-121 | on every run on which no two creations for the same two accounts overlap, whatever else interleaves or fails, two accounts are both active in at most one direct conversation |
| `DirectConversations.OverlappingCreationsMakeTwo` | packages/api/src/modules/messaging/conversations.service.ts:109-240 | a run of two creations that each search before the other has saved: the accounts then share two |
| `DirectConversations.OpeningIsARun` | packages/api/src/modules/messaging/conversations.service.ts:66-240 | a whole creation that finds none is a run of these steps, whether its last save succeeds or fails |
| `DirectConversations.GroupIsARun` | packages/api/src/modules/messaging/conversations.service.ts:66-240 | so is the creation of a group |
| `DirectConversations.PlatformStepProjects` | packages/api/src/modules/messaging/conversations.service.ts:219-240 | seen from one conversation, a step of the platform is that conversation's own step, the save of its rows, or nothing |
| `DirectConversations.ReopeningReturnsTheSame` | packages/api/src/modules/messaging/conversations.service.ts:110-120 | creating it again from either side returns the same conversation and leaves the ledger alone |
| `ConversationsService.Service.CollectBundles` | packages/api/src/modules/messaging/conversations.service.ts:963-985 | for each account, and no other, the key wrapped for that account's own public key, or an error that names an account without user or key |
| `ConversationsService.Service.RotateKeys` | packages/api/src/modules/messaging/conversations.service.ts:835-882 | keys and topic after a rotation under every fault; when none occurs each active member's bundle is the key wrapped for that member's public key; which active member lacks a key |
| `ConversationsService.Service.AddParticipant` | packages/api/src/modules/messaging/conversations.service.ts:525-662 | every check and its error; member, keys and topic after an add, and failure with the member saved when a key is missing |
| `ConversationsService.Service.RemoveParticipant` | packages/api/src/modules/messaging/conversations.service.ts:682-745 | the same for a removal, which reports an error after the fact when the requestor removed themselves |
| `ConversationsService.Service.NextAdmin` | packages/api/src/modules/messaging/conversations.service.ts:800-807 | an active member other than the leaver with the least join time, if there is one |
| `ConversationsService.Service.PromoteHeir` | packages/api/src/modules/messaging/conversations.service.ts:785-817 | promotes exactly when the last active admin leaves others behind |
| `ConversationsService.Service.LeaveConversation` | packages/api/src/modules/messaging/conversations.service.ts:756-829 | heir, departure and rotation together, and the errors |
| `ConversationsService.ReadingLeavesNothingUnread` | packages/api/src/modules/messaging/conversations.service.ts:1019-1026 | reading a conversation leaves that member nothing unread and moves nobody else's mark, role or activity |
| `ConversationsService.Service.MarkAsRead` | packages/api/src/modules/messaging/conversations.service.ts:1012-1033 | the conversation of the topic, with its own last-message mark, is read for that member, who then has nothing unread; no other conversation changes |
| `ConversationsService.Service.FindExistingDirectConversation` | packages/api/src/modules/messaging/conversations.service.ts:917-957 | finds a direct conversation in which both are active whenever there is one |
| `ConversationsService.CreationIsRefusedIff` | packages/api/src/modules/messaging/conversations.service.ts:74-107 | each ground on which a creation is refused before anything is made, in the order of the checks |
| `ConversationsService.NewRecordIs` | packages/api/src/modules/messaging/conversations.service.ts:185-240 | what a creation stores: topic, kind and keys, everyone named and nobody else as members, the founder the only admin, nothing unread |
| `ConversationsService.Service.Establish` | packages/api/src/modules/messaging/conversations.service.ts:144-250 | what each failure from the topic on leaves behind; it succeeds exactly when the founder's row is stored |
| `ConversationsService.Service.CreateConversation` | packages/api/src/modules/messaging/conversations.service.ts:66-240 | every validation error, reuse of a direct conversation, and what is left behind by a failure at each later call |
| `OperationRefinement.RotationIsARun` | packages/api/src/modules/messaging/conversations.service.ts:839-881 | every way the service's rotation can end is reached by single steps of the conversation protocol |
| `OperationRefinement.AddIsARun` | packages/api/src/modules/messaging/conversations.service.ts:592-658 | an add, with its rotation and every fault, is a run of the conversation protocol |
| `OperationRefinement.RemoveIsARun` | packages/api/src/modules/messaging/conversations.service.ts:733-742 | so is a removal |
| `OperationRefinement.LeaveIsARun` | packages/api/src/modules/messaging/conversations.service.ts:785-826 | so is a leave, with its promotion |
| `OperationRefinement.SendIsARun` | packages/api/src/modules/messaging/messaging.service.ts:93-184 | a send that meets the checks is a run that leaves what its insert leaves and nothing else |
| `OperationRefinement.ReadIsARun` | packages/api/src/modules/messaging/conversations.service.ts:1012-1026 | a read is a run that moves the reader's mark to the last-message mark and nothing else |
| `OperationRefinement.RotationStoresWhatItSubmitted` | packages/api/src/modules/messaging/conversations.service.ts:861-871 | a rotation submits and stores, for each active member and nobody else, the key wrapped for that member's own public key; it stores exactly when nothing failed, and what it submitted |
| `KeyDelivery.OwnBundleOpens` | packages/api/src/modules/messaging/conversations.service.ts:977-981 | a record that holds each account's key wrapped for its own public key opens, for whoever holds that secret, to the conversation key, in browser and library, given an ideal box |
| `KeyDelivery.RotatedKeysOpen` | packages/api/src/modules/messaging/conversations.service.ts:861-871 | so after a rotation that went through every active member opens the stored bundle, and the one in the exchange on the topic, to the fresh key |
| `Unread.UnreadCountsRowsIff` | packages/api/src/modules/messaging/conversations.service.ts:463-471 | the difference of the two marks counts index rows exactly when the index is complete between them |
| `Unread.UnreadAfterMarkRead` | packages/api/src/modules/messaging/conversations.service.ts:1012-1026 | 0 right after marking; from then on exact if and only if there was a synced message to mark or there is none yet |
| `Unread.ConfirmedMessagesAreNotCounted` | packages/api/src/modules/messaging/messaging.service.ts:474-485 | messages confirmed before their sync are missing from the count one for one |
| `Unread.UnreadIsExactOnRuns` | packages/api/src/modules/messaging/conversations.service.ts:329-337 | on harmless runs of a running process, at every point of them, the count equals the rows between the marks, for a member whose read mark is not below the start mark |
| `Presence.CleanedIs` | packages/api/src/modules/chat/chat-redis.service.ts:184-212 | the cleaning loop, run whole, removes exactly the account's entries in the tracked topics that name the socket |
| `PresenceProtocol.RunsAreConsistent` | packages/api/src/modules/chat/chat.gateway.ts:318-382 | on every run, with every awaited call of every handler a step and failure possible at each, both maps cover exactly the connected sockets and those whose disconnect is under way |
| `PresenceProtocol.AnythingMayFail` | packages/api/src/modules/chat/chat-redis.service.ts:205-209 | at every point a join, a leave, or a single look-up or deletion of a disconnect may fail, and a hash expire |
| `PresenceProtocol.DeletionsWereFound` | packages/api/src/modules/chat/chat-redis.service.ts:195-201 | on every run a disconnect deletes an entry only after a look-up that found it to name the socket |
| `PresenceProtocol.StepKeepsNoGhostsIff` | packages/api/src/modules/chat/chat.gateway.ts:349-506 | every entry stays accounted for, by a socket in the room or by a removal still to come, exactly when an entry is written while it is, and a removal that fails had nothing left to remove |
| `PresenceProtocol.NoGhostPresenceIff` | packages/api/src/modules/chat/chat.gateway.ts:318-509 | on every interleaving there are no ghosts throughout if and only if each write and each failed removal met that condition |
| `PresenceExactness.StepKeepsCompleteIff` | packages/api/src/modules/chat/chat-redis.service.ts:195-200 | everyone in a room stays listed exactly when an entry that is deleted, by a leave or after a disconnect's look-up, belongs to nobody in the room, only empty rooms expire, and a write that fails was not needed |
| `PresenceExactness.EveryoneIsListedIff` | packages/api/src/modules/chat/chat.gateway.ts:349-509 | on every interleaving everyone in a room is listed throughout if and only if each step met that condition |
| `PresenceExactness.PresenceIsExact` | packages/api/src/modules/chat/chat.gateway.ts:349-509 | on every run from the start whose steps meet both conditions, the entries are exactly the accounts in the rooms whenever no handler is under way |
| `PresenceExactness.StepKeepsToldIff` | packages/api/src/modules/chat/chat.gateway.ts:366-376 | where no broadcast is owed, replaying the broadcasts tells whether there is an entry; a step keeps it so exactly when the last broadcast owed for a seat is true, and what changes with no broadcast was not there |
| `PresenceExactness.BroadcastsRebuildPresenceIff` | packages/api/src/modules/chat/chat.gateway.ts:430-515 | on every interleaving the same holds throughout if and only if each step met that condition |
| `PresenceExactness.QuietIsRebuilt` | packages/api/src/modules/chat/chat.gateway.ts:430-515 | whenever no handler is under way it means that the replay is exactly the entries |
| `SerialPresence.TidyRunsAreExact` | packages/api/src/modules/chat/chat.gateway.ts:349-519 | with one handler at a time, none failing, one socket per account and room, leaves only of joined rooms and no expiry, all conditions are met: entries, accounts in the rooms and replayed broadcasts are the same whenever no handler is under way |
| `SerialPresence.JoinAnswersTheRoom` | packages/api/src/modules/chat/chat.gateway.ts:432-441 | on these runs the accounts listed for a topic, as a join answers them, are exactly those whose socket is in its room |
| `Presence.OnlineAccounts` | packages/api/src/modules/chat/chat-redis.service.ts:164-168 | the accounts with an entry for that topic and no other |
| `PresenceRefinement.JoinIsARun` | packages/api/src/modules/chat/chat.gateway.ts:399-457 | a join run whole, accepted or refused, is a run of the protocol |
| `PresenceRefinement.LeaveIsARun` | packages/api/src/modules/chat/chat.gateway.ts:485-519 | so is a leave |
| `PresenceRefinement.DisconnectIsARun` | packages/api/src/modules/chat/chat.gateway.ts:349-382 | so is a disconnect with all its look-ups, deletions and broadcasts |
| `PresenceRefinement.DisconnectRemovesItsOwn` | packages/api/src/modules/chat/chat-redis.service.ts:184-212 | with nothing else under way and no ghosts, a disconnect removes all entries that name the socket and no other |
| `PresenceRuns.ReloadHidesTheAccount` | packages/api/src/modules/chat/chat-redis.service.ts:195-200 | on a page reload the older socket's disconnect finds its entry, the newer socket's join overwrites it, and the deletion removes that: the newer socket is in the room with no entry |
| `PresenceRuns.DroppingDuringAJoinLeavesAGhost` | packages/api/src/modules/chat/chat.gateway.ts:410-433 | a socket that drops while its join awaits leaves a ghost entry |
| `PresenceRuns.OlderSocketsLeaveHidesTheNewer` | packages/api/src/modules/chat/chat.gateway.ts:505-506 | when the older of two sockets leaves, the newer is in the room with no entry, with no interleaving at all |
| `PresenceRuns.StrangersLeaveRemovesTheEntry` | packages/api/src/modules/chat/chat.gateway.ts:505-506 | one socket per room is not enough: a socket that never joined removes the entry by leaving |
| `PresenceRuns.LateBroadcastMisleads` | packages/api/src/modules/chat/chat.gateway.ts:430-515 | a join whose broadcast comes after that of a leave which overtook it: listeners take for online whoever is neither in the room nor listed |
| `ChatGateway.ChatRedisService.RemovePresenceBySocketId` | packages/api/src/modules/chat/chat-redis.service.ts:184-212 | the loop's remaining entries and its list of topics are those of the specification |
| `ChatGateway.EmitOfflines` | packages/api/src/modules/chat/chat.gateway.ts:368-376 | one offline broadcast for each removed topic, in order |
| `ChatGateway.Gateway.HandleConnection` | packages/api/src/modules/chat/chat.gateway.ts:271-339 | a verified socket is tracked with no rooms, any other not at all |
| `ChatGateway.Gateway.HandleDisconnect` | packages/api/src/modules/chat/chat.gateway.ts:349-382 | entries, broadcasts and both maps after a disconnect |
| `ChatGateway.Gateway.EnsureSocketTracked` | packages/api/src/modules/chat/chat.gateway.ts:734-741 | adds what is missing and overwrites nothing |
| `ChatGateway.Gateway.HandleJoinConversation` | packages/api/src/modules/chat/chat.gateway.ts:399-457 | tracks before it checks, announces only members, and answers with exactly the accounts that have an entry for the topic, the joiner included |
| `ChatGateway.Gateway.HandleLeaveConversation` | packages/api/src/modules/chat/chat.gateway.ts:485-519 | room, entry and broadcast after a leave |
| `OrganizationOwnership.StepKeepsOwnedIff` | packages/api/src/modules/organization/organization.service.ts:232-366 | every call keeps exactly one owner per organization, its ownerUserId, unless it stops between the two saves of a creation or a transfer |
| `OrganizationOwnership.RunsKeepOneOwner` | packages/api/src/modules/organization/organization.service.ts:302-366 | the same on every run of create, role change, removal, transfer, invite and accept in which no creation and no transfer stops halfway |
| `OrganizationOwnership.RolesChangeOnlyAsAssigned` | packages/api/src/modules/organization/organization.service.ts:232-489 | a call that succeeds gives exactly those it names their new roles; nobody else's role changes, and nobody's when it is refused |
| `OrganizationOwnership.StepKeepsOwnsAtMostOneIff` | packages/api/src/modules/organization/organization.service.ts:506-513 | from any tables, a user comes to own two organizations exactly by a completed transfer to someone who owns one |
| `OrganizationOwnership.RunsKeepOwnsAtMostOne` | packages/api/src/modules/organization/organization.service.ts:506-582 | where completed transfers go only to users who own nothing, nobody ever owns two, whatever stops halfway |
| `OrganizationOwnership.TransferToAnOwnerGivesTwo` | packages/api/src/modules/organization/organization.service.ts:339-362 | a run of five calls after which one user owns two |
| `Invitations.StepKeepsConservedIff` | packages/api/src/modules/organization/organization.service.ts:263-286 | members + removals = 1 + accepted invitations, for each organization, is kept by every call except a creation or an acceptance that stops between its saves, which upset it |
| `Invitations.MembershipIsConserved` | packages/api/src/modules/organization/organization.service.ts:263-286 | it holds on every run in which no creation and no acceptance stops between its saves |
| `Invitations.StepKeepsOneTimeIff` | packages/api/src/modules/organization/organization.service.ts:469-482 | a token gives at most one membership, except exactly when an acceptance of it stops before the invitation is saved |
| `Invitations.TokensAreOneTime` | packages/api/src/modules/organization/organization.service.ts:435-489 | a token none of whose own acceptances stops halfway never yields two memberships, and has given one exactly when it is accepted |
| `Invitations.InvitationsWaitOnce` | packages/api/src/modules/organization/organization.service.ts:389-416 | at most one invitation of an organization and address waits, on every run, halfway stops included |
| `Invitations.AcceptedIsFinal` | packages/api/src/modules/organization/organization.service.ts:447-449 | an accepted invitation never changes again, whatever the clock does |
| `Invitations.ExpiredIsFinal` | packages/api/src/modules/organization/organization.service.ts:451-455 | an expired one never changes again under a clock that does not go back |
| `Invitations.ExpiredIsTakenUpIff` | packages/api/src/modules/organization/organization.service.ts:447-467 | only the date is looked at: an expired invitation is taken up exactly when the clock reads its date or earlier and the user is no member |
| `Invitations.InvitationLastsSevenDays` | packages/api/src/modules/organization/organization.service.ts:42 | an invitation can be taken up until exactly seven days after it was sent, by anyone who is no member |
| `Invitations.LapsedInvitationBlocksUntilTried` | packages/api/src/modules/organization/organization.service.ts:390-401 | an invitation past its date still refuses a second one until someone presents it |
| `OrganizationCalls.CreationIs` | packages/api/src/modules/organization/organization.service.ts:495-582 | who is refused a creation, what one leaves behind when it completes or stops halfway, and that it touches nothing else |
| `OrganizationCalls.TargetErrorIs` | packages/api/src/modules/organization/organization.service.ts:232-289 | each ground on which a role change or removal is refused, in the order of the checks |
| `OrganizationCalls.MemberCallsAre` | packages/api/src/modules/organization/organization.service.ts:232-289 | they give the target the role, or take the target out, and affect nobody else |
| `OrganizationCalls.TransferIs` | packages/api/src/modules/organization/organization.service.ts:302-366 | each ground on which a transfer is refused, the three changes it makes, and that it touches nothing else |
| `OrganizationCalls.InvitationIs` | packages/api/src/modules/organization/organization.service.ts:372-422 | each ground on which an invitation is refused; otherwise exactly one row is added, with the organization, address and role asked for, waiting, for seven days |
| `OrganizationCalls.AcceptanceIsRefusedIff` | packages/api/src/modules/organization/organization.service.ts:435-467 | each ground on which an acceptance is refused, and that a late one changes nothing but the status to expired |
| `OrganizationCalls.AcceptanceIs` | packages/api/src/modules/organization/organization.service.ts:469-487 | an acceptance gives the user the invitation's role in its organization, marks the invitation unless that save fails, and touches nothing else |
| `OrganizationCalls.SentRoleIsGiven` | packages/api/src/modules/organization/organization.service.ts:405-484 | on every run, whoever takes up an invitation gets exactly the role it was sent with, in the organization it was sent for |
| `OrganizationService.Service.Create` | packages/api/src/modules/organization/organization.service.ts:495-582 | an owner's second organization is refused; otherwise organization and owner's membership, or the organization alone when the second save fails |
| `OrganizationService.Service.UpdateMemberRole` | packages/api/src/modules/organization/organization.service.ts:232-261 | not one's own role, not the owner's, only a member's |
| `OrganizationService.Service.Remove` | packages/api/src/modules/organization/organization.service.ts:263-289 | the same checks, then exactly that member is gone |
| `OrganizationService.Service.Transfer` | packages/api/src/modules/organization/organization.service.ts:302-366 | the checks in order; then old owner admin, target owner, and the organization's owner, unless its save fails |
| `OrganizationService.Service.Invite` | packages/api/src/modules/organization/organization.service.ts:372-422 | refused for a member's address and for a waiting invitation; otherwise waiting for seven days |
| `OrganizationService.Service.Accept` | packages/api/src/modules/organization/organization.service.ts:435-489 | the checks in order; expiry is stored; membership first and status second |
| `Base64.JoinSextets` | apps/web/src/lib/crypto-utils.ts:30-36 | cutting bytes into sextets (section 4 of RFC 4648) and joining them gives back the bytes |
| `Base64.StrictRoundTrip` | apps/web/src/lib/crypto-utils.ts:30-46 | what is encoded decodes in the browser to the same bytes, for all bytes |
| `Base64.LenientRoundTrip` | packages/crypto/src/key-exchange.ts:150 | and with Node's decoder |
| `Base64.DecodersAgree` | apps/web/src/lib/crypto-utils.ts:39-46 | on every text the strict decoder accepts the lenient one gives the same bytes |
| `WebBase64.ToBase64` | apps/web/src/lib/crypto-utils.ts:30-36 | the loop over bytes yields their encoding, which decodes back |
| `WebBase64.FromBase64` | apps/web/src/lib/crypto-utils.ts:39-46 | the loop over characters yields the decoded bytes, or an error for what is not base64 |
| `KeyBundles.EncryptForRecipient` | packages/crypto/src/key-exchange.ts:108-131 | one buffer of ephemeral key, nonce and ciphertext; an error exactly for a public key that is not 32 bytes |
| `KeyBundles.CreateKeyExchange` | packages/crypto/src/key-exchange.ts:62-95 | the loop fills the record of bundles, or fails when a key has the wrong size |
| `KeyBundles.EveryoneGetsTheirBundle` | packages/crypto/src/key-exchange.ts:74-79 | the record holds each participant's own bundle and nobody else's |
| `KeyBundles.FrameSplits` | packages/crypto/src/key-exchange.ts:152-155 | the 32 + 24 + rest framing comes apart into what was framed |
| `KeyBundles.EveryBundleOpens` | packages/crypto/src/key-exchange.ts:122-166 | every bundle opens to the conversation key for its participant, in the library and in the browser, given an ideal box |
| `KeyBundles.BrowserImpliesLibrary` | apps/web/src/lib/crypto-utils.ts:324-344 | on any stored text, what the browser opens the library opens alike, up to the length check of an AES key |
| `KeyBundles.LibraryImpliesBrowserIff` | apps/web/src/lib/crypto-utils.ts:329-344 | the browser opens what the library opens exactly when the text is strict base64 |
| `KeyBundles.LibraryOpensIff` | packages/crypto/src/key-exchange.ts:146-165 | the library opens what has room for key and nonce and the box opens to an AES key, from the three slices; each other case has its error |
| `KeyBundles.BrowserOpensIff` | apps/web/src/lib/crypto-utils.ts:329-344 | the browser opens exactly an entry of the account that is strict base64, has that room, and that the box opens |
| `KeyBundles.IdealBoxesExist` | packages/crypto/src/key-exchange.ts:115-120 | the hypothesis on the box can be met |
| `WebMessages.EncryptMessage` | apps/web/src/lib/crypto-utils.ts:84-122 | errors for empty text and wrong key size; otherwise the sealed bytes cut 16 before the end, each part encoded |
| `WebMessages.DecryptMessage` | apps/web/src/lib/crypto-utils.ts:131-169 | the checks in order, on the tag put back behind the ciphertext |
| `WebMessages.EncryptionFailsIff` | apps/web/src/lib/crypto-utils.ts:84-101 | the two grounds on which an encryption fails |
| `WebMessages.DecryptionFailsIff` | apps/web/src/lib/crypto-utils.ts:131-169 | each ground on which a decryption fails, in the order of the checks |
| `WebMessages.EncryptedReadsBack` | apps/web/src/lib/crypto-utils.ts:109-122 | splitting off the tag and joining it again loses nothing |
| `WebMessages.RoundTripIff` | apps/web/src/lib/crypto-utils.ts:84-169 | a text survives exactly when it is not empty, the key has 32 bytes and the text encoding keeps it |
| `WebMessages.IdealCiphersExist` | apps/web/src/lib/crypto-utils.ts:103-107 | the hypothesis on the cipher can be met, by an instance that keeps every text of characters below 256 |
| `TopicKeys.KeyStore.EncryptMessage` | packages/crypto/src/message-crypto.ts:42-72 | an envelope under the topic's stored key, or KEY_NOT_FOUND |
| `TopicKeys.KeyStore.DecryptMessage` | packages/crypto/src/message-crypto.ts:92-138 | KEY_NOT_FOUND, KEY_ID_MISMATCH, then decoding and opening |
| `TopicKeys.WhatTheReceiverReads` | packages/crypto/src/message-crypto.ts:98-138 | a message is read exactly by a store that holds a key of the same id; the error otherwise |
| `TopicKeys.OpeningFailsIff` | packages/crypto/src/message-crypto.ts:98-138 | each ground on which an envelope is not opened, in the order of the checks |
| `TopicKeys.RotationClosesEarlierMessages` | packages/crypto/src/message-crypto.ts:107-114 | once the stored key is rotated no earlier message opens, even for its sender |
| `Typing.SignalsAlternate` | apps/web/src/components/chat/ChatInput.tsx:18-50 | on every timed run signals alternate true, false, and a timer is pending exactly when the flag is set |
| `Typing.StopFiresIff` | apps/web/src/lib/timers.ts:54-78 | the stop can fire at t exactly when the last call was at t - 2000 ms with no later call, cancel or firing |
| `Typing.IndicatorIsFresh` | apps/web/src/components/chat/ChatInput.tsx:18-35 | while the indicator is on, the last keystroke is at most 2000 ms old at the next event |
| `Typing.FiringEndsTyping` | apps/web/src/components/chat/ChatInput.tsx:20-23 | a firing always turns a true into a false: never a second false |
| `Typing.BlankIffAllSpaces` | apps/web/src/components/chat/ChatInput.tsx:38-39 | exactly the texts of white space alone are ignored by a send |
| `Typing.TrimIs` | apps/web/src/components/chat/ChatInput.tsx:38 | trimming takes off the white space at both ends and nothing else |
| `Typing.EventsSignal` | apps/web/src/components/chat/ChatInput.tsx:18-50 | what each event signals and sends, and that blank text does nothing |
| `Typing.TextsAreSent` | apps/web/src/components/chat/ChatInput.tsx:37-50 | on every timed run exactly the texts that are not blank have been sent, trimmed, in order |
| `ChatInput.Debounce.Fn` | apps/web/src/lib/timers.ts:60-68 | a call clears the last timer and sets the only new one |
| `ChatInput.Debounce.Cancel` | apps/web/src/lib/timers.ts:70-75 | a cancel clears the timer and forgets it |
| `ChatInput.Input.HandleTyping` | apps/web/src/components/chat/ChatInput.tsx:27-35 | one true signal at most, and the stop postponed |
| `ChatInput.Input.HandleSend` | apps/web/src/components/chat/ChatInput.tsx:37-50 | blank text ignored; otherwise the timer cancelled, a false if typing, and the trimmed text sent |
| `ChatInput.Input.HandleTimer` | apps/web/src/lib/timers.ts:64-67 | the callback signals a stop and the timer id is forgotten |
| `Notifications.MarkTouchesOnlyHits` | packages/api/src/modules/notifications/notifications.service.ts:458-523 | a mark changes exactly the recipient's unread selected rows, and writes its time into them |
| `Notifications.MarkConserves` | packages/api/src/modules/notifications/notifications.service.ts:464-476 | what a mark reports is what it takes off its recipient's unread count, and nobody else's |
| `Notifications.NotificationsAreConserved` | packages/api/src/modules/notifications/notifications.service.ts:428-523 | on every run, for each recipient: created = unread + the sum of all results |
| `Notifications.ReadIffTimed` | packages/api/src/modules/notifications/notifications.service.ts:470-473 | on every run a row is read exactly when it has a read time |
| `Notifications.ReadTimeIsWrittenOnce` | packages/api/src/modules/notifications/notifications.service.ts:464-473 | a read time never changes again, nor a row's recipient or creation time |
| `Notifications.RowsTellTheRun` | packages/api/src/modules/notifications/notifications.service.ts:104-523 | on every run a row has the recipient, category and time it was created with, and is read since the first later mark of its recipient that names it, if there is one |
| `Notifications.MarkRows` | packages/api/src/modules/notifications/notifications.service.ts:464-476 | the pass over the rows computes the marked table and the number of rows it changed |
| `Notifications.NotificationTable.SendNotification` | packages/api/src/modules/notifications/notifications.service.ts:104-116 | one unread row more |
| `Notifications.NotificationTable.MarkAsRead` | packages/api/src/modules/notifications/notifications.service.ts:458-523 | markAsRead for given ids and markAllAsRead for all: the run grows by one mark, whose result is returned |
| `Notifications.NotificationTable.GetUnreadCount` | packages/api/src/modules/notifications/notifications.service.ts:428-438 | the count is what was created less what all marks have reported |
| `NotificationPaging.MatchingIs` | packages/api/src/modules/notifications/notifications.service.ts:346-360 | the listing has each of the recipient's rows of the category as often as it is stored, and no other |
| `NotificationPaging.PageHoldsMatches` | packages/api/src/modules/notifications/notifications.service.ts:337-378 | a page holds at most the allowed number of the recipient's own rows of the category, older than the cursor and newest first, with the count of all of them |
| `NotificationPaging.GetNotificationsAnswers` | packages/api/src/modules/notifications/notifications.service.ts:337-378 | for all rows, recipients, categories, cursors and limits: the newest of the recipient's rows older than the cursor, as many as the limit allows, newest first, with hasMore exactly when some are left out, the last row's millisecond as cursor, and the count of all |
| `NotificationPaging.PageIs` | packages/api/src/modules/notifications/notifications.service.ts:343-378 | a page holds the rows from the position of its cursor, and its own cursor is the time of the last of them |
| `NotificationPaging.PagesGiveEveryRowIff` | packages/api/src/modules/notifications/notifications.service.ts:343-378 | a client that asks again with each cursor gets every matching row once, newest first, exactly when no page ends between two rows of one millisecond; otherwise it misses some |
| `NotificationPaging.DistinctMillisPageFully` | packages/api/src/modules/notifications/notifications.service.ts:370-378 | with creation times distinct to the millisecond every limit yields every matching row once, newest first |
| `NotificationPaging.SameMillisecondIsSkipped` | packages/api/src/modules/notifications/notifications.service.ts:365-378 | two rows of one millisecond on a page boundary: the older is never shown |
| `Decimal.ParsePrint` | packages/api/src/modules/chat/chat-redis.service.ts:395-396 | parseInt undoes the printing of a natural number, whatever non-digit follows |
| `Decimal.ParseSigned` | packages/api/src/modules/messaging/messaging.service.ts:289 | parseInt skips white space, reads one sign, and ignores what follows the digits |
| `Decimal.NotANumber` | packages/api/src/modules/messaging/messaging.service.ts:289 | with no digit there it gives no number |
| `ReadReceipts.ReceiptRoundTrip` | packages/api/src/modules/chat/chat-redis.service.ts:384-403 | parsing a stored receipt gives back both numbers |
| `ReadReceipts.StoredIsLastSet` | packages/api/src/modules/chat/chat-redis.service.ts:277-318 | after any sequence of sets and expiries, reading a receipt gives the last one set |
| `ReadReceipts.ReceiptStore.SetReadReceipt` | packages/api/src/modules/chat/chat-redis.service.ts:277-295 | one set more on the run |
| `ReadReceipts.ReceiptStore.GetReadReceipt` | packages/api/src/modules/chat/chat-redis.service.ts:300-318 | the last receipt set, if any |
| `ReadReceipts.ReceiptStore.GetAllReadReceipts` | packages/api/src/modules/chat/chat-redis.service.ts:323-345 | exactly the last receipt of each account of the topic, each once |
| `ReadReceipts.ParseAll` | packages/api/src/modules/chat/chat-redis.service.ts:330-335 | the loop over a hash lists exactly what parses, once per account |

## Left out

- ConversationsService.Service.CollectBundles: when several accounts lack a key the error names one of them, not
  necessarily the first of a list, because membership rows have no order in the model.
- ConversationsService.Service.NextAdmin: between members of equal join time any may be promoted, as the query leaves open.
- Stale-entity overwrites by concurrent saves of one conversation row or of one membership row: a save changes the fields
  that its operation sets and no other.
- Two queries of one operation are one step where one of them reads only what never changes in the model, a
  conversation's kind or the users: the conversation with the requestor's row, a newcomer's row with the user, the
  active members with their public keys.
- Encryption failures before the insert of `sendMessage` change nothing and are not modelled.
- Interleaving of organization calls: each runs whole, up to the save at which it may stop.
- Interleaving between topics: they share no state, so the interleaved protocol is per topic, and the scheduled job over
  many topics runs undisturbed.
- Message previews, timestamps, `lastMessageAt`, media, and the notifications that `sendMessage` sends.
- JavaScript numbers above 2^53, and bigint columns that the driver returns as strings: sequence numbers are naturals.
- Listing conversations (`getUserConversations`): its one cursor mixes last-message time and creation time, and works only
  where all last-message times are present and distinct.
- Repeated accounts in a participant list: the list is taken as a set once it is validated.
- Failure to wrap a key for a public key that is not 32 bytes long: the users table holds only texts that the profile's
  checks admit (update-profile.dto.ts:42), and every such key can be wrapped for.
- Typing entries in Redis, the time-to-live of presence other than as an expiry step, and the cluster adapter.
- Socket rooms: a room is what the gateway tracks for a socket.
- The hash of joined times in a presence entry, which nothing decides on.
- Who invited a member, organization profile, KYB status, badge, Hedera account, broadcast topic and DID token of a new organization.
- Who may call an organization's operations: the guards are not part of this model.
- The revoked status of an invitation: no code sets it, so no step does.
- The inside of X25519, XSalsa20-Poly1305, AES-GCM, UTF-8 and JSON: assumed to invert, not to hide.
- Storing private keys and wrapping them with a PIN.
- A change of topic in the chat input while its timer runs, and timers that fire late.
- Audit submissions of notifications, their delivery over sockets, and sender names in a listing.
- Database and network failures of notification and receipt calls: they change nothing and are not modelled.
- Delivery of typing signals to other clients.
