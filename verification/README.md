# Bluepost: encrypted history, OBEX worker and parsers

Bluepost keeps an encrypted, bounded history of the messages on a Bluetooth phone. This project models its core
in Dafny and proves what that core promises:

- **The history.** `History` says what appending a message does: put it in the place of the record with its handle
  or at the end, then keep the longest suffix within both limits. `Repository.Repo` is the object that does it in
  place, working with recorded sizes only. `Snapshot.Store` is the encrypted file behind it, with a disk that tells
  what is visible from what survives a crash; `CrashSafety` says what loads after errors and crashes at any point,
  and `Persistence` connects files and records. `Backend.Backend` is the object that owns the repository, polls and
  locks; `BackendRuns` lets push and poll goroutines interleave inside `storeMessage`, over any number of daemon
  lifetimes with crashes and restarts between them, also in the middle of a save. `Sorting` and `ContactBook` cover
  the order, paging and lookup of contacts.
- **The OBEX worker and the sessions.** `Worker` and `Sessions` are transition systems: one step per channel
  operation, `select` branch, locked section or remote call, and every enabled step may happen next. The theorems
  hold in every state of every run. `Sessions.Manager` is the object whose locked sections the steps perform.
- **The parsers.** `Vcard` parses phonebooks, `BMessage` downloaded messages, `MapClient` builds the records
  that reach the history, and `Polling` says what becomes of a listing. `VcardRoundTrip`,
  `BMessageRoundTrip`, `HeaderRoundTrip` and `BMessageFile` write a text and parse it back.

Each method with a loop is proved equal to a function, and the properties are lemmas about that function.
`dafny verify dfyconfig.toml` checks everything.

## Where the code is less than its promise

- `Submit` may return `ErrQueueFull` for work that ran, because the work function may return that very error.
  `Worker.QueueFullMayHaveRun` gives the run. `Worker.ErrorsBeforeEnqueueNeverRan` says exactly when: the work ran if
  and only if the call got onto the queue, and if and only if the work itself returned the error.
- Work may start after `stop` is closed, since `run` may still choose the queue branch. `Worker.WorkMayStartAfterStopCloses`
  gives a run, and `Worker.WorkMayStartExactly` says exactly when work may still start, in every reachable state.
  Nothing starts once the worker has taken the stop branch (`Worker.NothingStartsWhileStopping`), and so after `Stop`
  has returned (`Worker.NothingAfterStop`).
- A context cancelled after the worker has read its error does not keep the work from starting
  (`Worker.CancelledTooLateStarts` is a run). Any earlier cancellation does (`Worker.CancelledNeverStarts`), in particular
  one before the request is dequeued (`Worker.CancelledBeforeDequeueNeverRuns`): a cancelled call that has not started
  may still run exactly at that point (`Worker.CancelledMayRunExactly`).
- Memory and disk can differ while storage is unlocked: between a save that failed after its rename and the call of
  `lock`, another goroutine sees the old history. `BackendRuns.UnlockedMayDisagree` gives the run.
  `BackendRuns.DisagreeExactly` says exactly when they differ, in every reachable state: the last save that got as far
  as its rename failed, and it was to change the history. `BackendRuns.MemoryIsDisk` says that they agree outside
  that window. One call at a time, `Backend.Backend.StoreMessage` keeps the agreement unconditionally.
- `ListRecent` does not bound `SenderPhoneNorm`. `MapClient.PolledRecordValid` says exactly which records the history
  then accepts, and `MapClient.LongSenderRejected` gives one that it rejects. Storing a listing then stops at that
  record, and no later one is stored while it stays listed: `Polling.ListingStorableExactly` and
  `Backend.Backend.StoreBatch`.
- A session that obexd drops before it is published is published all the same, and tracked although it is gone:
  `Sessions.LostBeforePublishedExactly`.
- The connection state does not tell that storage is locked: after a failed save has locked, the loop may report
  `degraded` or `ready` (`Backend.Backend.LossHidesLock`). A `locked` state does mean locked storage.
- A body survives stuffing and parsing exactly under the condition of `BMessageRoundTrip.BodyRoundTrip`: for instance
  a line of one space and `BEGIN:` loses its space, and `END:BBODY` ends the body region at any indent.

## Assumptions

- AES-GCM: opening what was sealed with the same key, nonce and additional data gives the plaintext, only sealed
  bytes open, and the tag adds 16 bytes. `Snapshot.LawfulCipherExists` shows that the laws can be met.
- `encoding/json`: an envelope decodes to the records it was made from, and an array is its elements joined by commas.
  `CodecLaws.LawfulCodecExists` shows that the laws can be met.
- The disk: rename is atomic and takes place only if it succeeds, a synchronised file survives a crash, and a
  directory entry that was not synchronised may come back as it was. The state directory itself, whose parent the code
  does not synchronise after creating it, survives.
- obexd never hands out a path twice, and a session made for one target does not report the other one.
- Texts are valid UTF-8, modelled as Unicode scalar values; byte limits are counted in UTF-8. A timestamp is an
  instant with a zone offset, as integers; the order and the recency test look at the instant only.

## Model

| member | source | states |
|---|---|---|
| Worker.NothingBlocks | internal/obex/worker.go:50-119 | in every reachable state the tokens in use are those held by submitters, by queued operations and by the worker, within capacity; so no send or receive done while holding one can block |
| Worker.StateNeverBlocks | internal/obex/worker.go:54-76 | the invariant alone enables each channel operation that a token holder is about to do |
| Worker.RunInv | internal/obex/worker.go:50-119 | slot accounting, queue order, result provenance and stop protocol hold together in every state of every interleaving |
| Worker.UndeliveredSlotEmpty | internal/obex/worker.go:102-115 | the one-place result channel of an unanswered operation is empty when the worker gets to it |
| Worker.AtMostOneDelivery | internal/obex/worker.go:102-115 | no result channel receives two values in a run |
| Worker.SerialInOrder | internal/obex/worker.go:87-107 | started operations are a duplicate-free subsequence of enqueue order, and at most the last of them is unfinished |
| Worker.NilMeansRanOnce | internal/obex/worker.go:50-77 | `Submit` returning nil means its work was started and finished exactly once and returned nil |
| Worker.ErrorsBeforeEnqueueNeverRan | internal/obex/worker.go:50-77 | a returned call whose work ran returned the work's own result, a cancellation or the stop; a call that was not enqueued never ran; a call that returned `ErrQueueFull` or the argument error ran if and only if it was enqueued, and if and only if the work returned that error |
| Worker.AnswersHaveCauses | internal/obex/worker.go:50-119 | every answer of `Submit` has its cause: `ErrWorkerStopped` a closed `stop`, a context error the cancelled context, the argument error exactly a missing argument, `ErrQueueFull` a call that was not enqueued; otherwise it is the worker's answer, that of the work or, for work that never started, of a cancellation or of the draining |
| Worker.SubmitAnswersAtOnce | internal/obex/worker.go:51-58 | `Submit` answers at once exactly for missing arguments, and with `ErrQueueFull` exactly if submitters, queued requests and the worker hold all slots |
| Worker.DrainAnswersStopped | internal/obex/worker.go:109-119 | from the stop branch on, everything the worker answers is `ErrWorkerStopped` |
| Worker.QueueFullMayHaveRun | internal/obex/worker.go:54-77 | a run in which `Submit` returns `ErrQueueFull` for work that ran |
| Worker.NotEnqueuedForever | internal/obex/worker.go:54-69 | a call that failed before enqueueing is not enqueued in any later state |
| Worker.CancelledNeverStarts | internal/obex/worker.go:96-101 | an operation whose context is cancelled before the worker has read its error never starts in any continuation |
| Worker.CancelledBeforeDequeueNeverRuns | internal/obex/worker.go:95-101 | an operation whose context is cancelled before it is dequeued never starts, runs or finishes |
| Worker.CancelledMayRunExactly | internal/obex/worker.go:96-101 | in every reachable state, a cancelled call that has not started can still run if and only if the worker has read that its context is not cancelled and is about to call it |
| Worker.CancelledTooLateStarts | internal/obex/worker.go:98-101 | a run in which this happens |
| Worker.NothingStartsWhileStopping | internal/obex/worker.go:90-94 | nothing starts in any state after the worker has taken the stop branch |
| Worker.NothingAfterStop | internal/obex/worker.go:79-85 | from the moment some `Stop` has returned nothing is running, starts, finishes or is answered, also for requests enqueued after the drain |
| Worker.WorkMayStartExactly | internal/obex/worker.go:87-107 | in every reachable state, `stop` closed or not, some continuation starts work if and only if the worker has passed or will pass the check of a request, or has not taken the stop branch while an uncancelled request is queued or can still be enqueued |
| Worker.WorkMayStartAfterStopCloses | internal/obex/worker.go:90-101 | a run in which work starts after `stop` was closed |
| Worker.RankDecreases | internal/obex/worker.go:50-119 | every step of every party lowers one natural-number measure |
| Worker.RunsAreBounded | internal/obex/worker.go:50-119 | with finitely many callers no run is longer than the measure of its first state |
| Worker.WorkerCanMove | internal/obex/worker.go:87-119 | a worker that has not exited always has a step unless it waits, unstopped, on an empty queue |
| Worker.QuiescentAtRest | internal/obex/worker.go:50-119 | no deadlock: if the program can take no step, all callers are back and the worker has exited or waits idle |
| Worker.StopLeadsToExit | internal/obex/worker.go:79-119 | a run that cannot be continued is short, at rest, and has the worker exited if `stop` was closed |
| Worker.NoSubmitterStuck | internal/obex/worker.go:59-76 | once `stop` is closed every unreturned `Submit` has a step of its own |
| Sessions.Manager.MarkLost | internal/obex/sessions.go:134-147 | exactly the given path is untracked, and the result says whether it was tracked; the empty path clears nothing and counts as lost while a field is empty |
| Sessions.Manager.MarkServiceLost | internal/obex/sessions.go:149-156 | both paths are cleared, and the result says whether there was one |
| Sessions.Manager.TakeAll | internal/obex/sessions.go:113-132 | the locked part of `close` returns the tracked paths, MAP first, and clears them |
| Sessions.Manager.TakeMap | internal/obex/sessions.go:87-100 | the locked start of `RefreshMAP` takes the MAP path only, and nothing when no phone is set |
| Sessions.Manager.Publish | internal/obex/sessions.go:74-81 | the locked end of `Open` sets phone and both paths |
| Sessions.Manager.PublishMap | internal/obex/sessions.go:107-111 | the locked end of `RefreshMAP` leaves phone and PBAP path alone |
| Sessions.Perform | internal/obex/sessions.go:46-156 | each step of the transition system that touches the fields is one of these locked sections, with the same effect on the fields |
| Sessions.RunInv | internal/obex/sessions.go:46-156 | role, phase, request and conservation invariants hold in every state of every interleaving with signals and `close(false)` |
| Sessions.RemovalsAreSafe | internal/obex/sessions.go:245-312 | no step asks obexd to remove a session that is tracked or about to be published |
| Sessions.RequestedNeverTracked | internal/obex/sessions.go:113-132 | a path once asked to be removed is untracked in every later state |
| Sessions.OwnRemovalIsNoLoss | internal/obex/sessions.go:134-147 | the signal for a removal this program requested finds the path untracked and changes nothing |
| Sessions.RefreshSparesPbap | internal/obex/sessions.go:87-111 | no step of `RefreshMAP` changes the PBAP path or asks to remove any session made for PBAP |
| Sessions.NoSessionForgotten | internal/obex/sessions.go:46-111 | with the worker idle each created session is tracked, was asked to be removed, or was given up on a signal or `close(false)` |
| Sessions.TrackedKinds | internal/obex/sessions.go:46-111 | the MAP and the PBAP path are sessions created for just that target, never the same one |
| Sessions.LostBeforePublishedExactly | internal/obex/sessions.go:66-81 | a session the program made and obexd reports as removed can be tracked afterwards if and only if it was not yet published when the signal came |
| Sessions.OpenAchieves | internal/obex/sessions.go:46-81 | when its remote calls succeed, the first `create` being allowed one `Forbidden`, and no signal intervenes, `Open` goes on until it ends; with both sessions tracked it has then changed and requested nothing, otherwise both paths are tracked, sessions just made for MAP and PBAP, and what was tracked was asked to be removed |
| Sessions.RefreshAchieves | internal/obex/sessions.go:87-111 | likewise `RefreshMAP` ends with a MAP session just made in place of the old one, which was asked to be removed, and the PBAP path as it was; without a phone nothing happens |
| Sessions.CloseAchieves | internal/obex/sessions.go:113-132 | likewise `close` ends with nothing tracked, and has asked to remove exactly what was tracked, or nothing if told so |
| Sessions.SmoothDecreases | internal/obex/sessions.go:46-156 | an operation takes only finitely many such steps, whatever obexd does in between |
| Sessions.CanFinish | internal/obex/sessions.go:46-156 | from wherever it stands an operation can be carried to its end by them |
| Sessions.StaleAllRequested | internal/obex/sessions.go:245-263 | when `removeStale` is done, each listed session of this phone with a target to be cleared has been asked to be removed |
| Sessions.CreateIsRetried | internal/obex/sessions.go:265-285 | each `create` may be answered `Forbidden` once, and is then tried again after its target's stale sessions are cleared |
| Snapshot.LawfulCipherExists | internal/storage/snapshot.go:174-209 | the laws assumed of the cipher are consistent |
| Snapshot.Box.OpenInvertsSeal | internal/storage/snapshot.go:174-209 | opening inverts sealing for the same purpose, and a sealed file is header, tag and plaintext long |
| Snapshot.Box.OpenedWasSealed | internal/storage/snapshot.go:193-209 | only sealed files open, for their own purpose |
| Snapshot.Box.SealedLayout | internal/storage/snapshot.go:174-191 | the byte layout of a sealed file |
| Snapshot.PurposesDiffer | internal/storage/snapshot.go:223-225 | the two snapshots are sealed with different additional data |
| Snapshot.Store.Save | internal/storage/snapshot.go:79-136 | step by step with every early return, also when the temporary file cannot be removed: the error, the final disk, and that each intermediate disk is one of the listed stages |
| Snapshot.Store.LoadSnapshot | internal/storage/snapshot.go:50-77 | loading agrees with the specification, and an operating-system failure locks |
| CrashSafety.StagesArePossible | internal/storage/snapshot.go:98-134 | after any number of stages of `Save` a crash can leave only the old plaintexts or the new one |
| CrashSafety.DuringIsPossible | internal/storage/snapshot.go:98-134 | the same for every state `Save` passes through, torn writes included, and nothing happens to the other snapshot |
| CrashSafety.CrashLoads | internal/storage/snapshot.go:50-77 | reloading after a crash always succeeds, gives a plaintext that was possible, and settles on it |
| CrashSafety.CrashLeavesOldOrNew | internal/storage/snapshot.go:79-136 | a crash anywhere in `Save` reloads exactly the old or the new plaintext; the other snapshot keeps its own |
| CrashSafety.UnrenamedIrrelevant | internal/storage/snapshot.go:98-121 | a save that does not get as far as the rename changes nothing that loads, now or after a crash, even if its temporary file stays behind |
| CrashSafety.SaveOutcome | internal/storage/snapshot.go:79-136 | nil: the new plaintext loads now and after every crash; an error before the rename leaves all that loads as it was; any other is `ErrLocked` with the new plaintext in place |
| CrashSafety.NeverOlderThanAcknowledged | internal/storage/snapshot.go:50-136 | over any run of saves, errors and crashes, what loads is the last acknowledged plaintext or one attempted since |
| History.HistoryJsonSize | internal/storage/repository.go:283-292 | the accumulating loop computes brackets, record sizes and commas |
| History.SizeIsExact | internal/storage/repository.go:283-292 | that number is the exact length of the encoded envelope |
| History.PlanKeepsLongestSuffix | internal/storage/repository.go:111-162 | appending or replacing keeps the longest suffix within both limits; it is refused for room exactly if every fitting suffix loses the new record |
| History.PlanKeepsHandlesUnique | internal/storage/repository.go:127-138 | non-empty handles stay unique in what is written |
| History.CountUnique | internal/storage/repository.go:127-138 | with unique handles, a resident handle counts once and any other not at all |
| History.PlanConservesHandles | internal/storage/repository.go:127-155 | handles enter at the end by creation, leave at the front by eviction, and keep their place otherwise |
| Repository.Repo.Open | internal/storage/repository.go:48-101 | it succeeds exactly if both snapshots load, decode and are acceptable, then holds exactly what is on disk; a failure changes nothing |
| Repository.UnreadableNotOpenable | internal/storage/repository.go:48-61 | a snapshot that does not load, being torn, tampered with or sealed under another key, makes `Open` fail |
| Repository.OtherSchemaNotOpenable | internal/storage/repository.go:58-68 | so does a history or contact list of another schema version or one that does not decode; an empty text is one without records |
| Repository.Repo.AppendMessage | internal/storage/repository.go:111-169 | it carries out the plan: refusals and known messages change nothing, memory changes only after a successful save, and the plaintext is never too large for `Save` |
| Repository.Repo.Place | internal/storage/repository.go:127-142 | the candidate list has the record in its place, and its sizes are the encoded sizes |
| Repository.Repo.FindIndex | internal/storage/repository.go:127-133 | the search finds the first record with a non-empty handle |
| Repository.Repo.Evict | internal/storage/repository.go:143-155 | the size-driven loop finds the least number of evictions, or reports the right error when the new record would go |
| Repository.Repo.Messages | internal/storage/repository.go:171-179 | a suffix of the history, as long as the limit allows |
| Repository.Repo.ReplaceContacts | internal/storage/repository.go:181-209 | a list is stored exactly if it passes every check and the save succeeds, and is then the stably sorted one; otherwise memory keeps the old list |
| Repository.Repo.Contacts | internal/storage/repository.go:211-219 | one page, empty when out of range |
| Repository.Repo.ResolveContact | internal/storage/repository.go:252-275 | the counting loop finds the name of the only contact listing the normal form |
| ContactBook.ByNameIsOrder | internal/storage/repository.go:191-193 | comparing lower-cased names is a strict weak order |
| ContactBook.LessExactly | internal/storage/repository.go:191-193 | the comparison of names is the lexicographic one |
| ContactBook.StoredOrder | internal/storage/repository.go:191-193 | what is stored is sorted by lower-case name, a permutation of the input, and stable |
| ContactBook.PagesConcatenate | internal/storage/repository.go:211-219 | consecutive pages of any size concatenate to the stored permutation |
| ContactBook.ResolveFindsUniqueHolder | internal/storage/repository.go:252-275 | a contact listing the normal form of an address is found by it exactly if it is the only one |
| ContactBook.ListedAddressResolves | internal/storage/repository.go:252-275 | an address listed by a parsed contact leads to that contact exactly if no other lists it |
| ContactBook.SpellingsResolveAlike | internal/storage/repository.go:252-275 | all spellings with one normal form resolve alike |
| Sorting.StableSortCorrect | internal/storage/repository.go:191-193 | the sort is sorted, a permutation, and keeps the order of ties |
| Sorting.StableSortUnique | internal/backend/backend.go:210-212 | sorted and stable determine the result, so the sorting algorithm does not matter |
| Persistence.PlannedRecordsAcceptable | internal/storage/repository.go:111-162 | whatever `appendMessage` writes meets all conditions of `Open` |
| Persistence.OtherSnapshotUntouched | internal/storage/snapshot.go:79-136 | saving one snapshot does not change what the other loads, nor does a save that fails before its rename change its own |
| Persistence.SavedHistoryReloads | internal/storage/repository.go:156-169 | once renamed, also if `Save` then fails, the disk decodes to the very records saved |
| Persistence.SavedContactsKeepHistory | internal/storage/repository.go:181-209 | storing contacts, successfully or not, leaves the history on disk alone |
| Persistence.ReopenAfterAppend | internal/storage/repository.go:48-101 | after an acknowledged append, and after any crash then, `Open` succeeds if the contacts that may load are acceptable, and gives back exactly those records |
| Persistence.PlannedTextIsGood | internal/storage/repository.go:111-162 | what `appendMessage` saves decodes to acceptable records with unique handles |
| Persistence.SortedContactsAreGood | internal/storage/repository.go:181-203 | what `ReplaceContacts` saves decodes to acceptable contacts |
| Persistence.SaveKeepsWritten | internal/storage/snapshot.go:79-136 | at every moment of such a save, whatever a crash leaves of either snapshot is again good |
| Persistence.CrashKeepsWritten | internal/storage/snapshot.go:50-77 | a crash keeps that |
| Persistence.WrittenOpens | internal/storage/repository.go:48-101 | `Open` accepts every such disk, and the handles it loads are unique |
| CodecLaws.LawfulCodecExists | internal/storage/repository.go:19-27 | the laws assumed of the encoding are consistent, with every message encodable |
| Backend.Backend.constructor | internal/backend/backend.go:63-75 | a new backend is locked and stopped, whatever is on disk |
| Backend.Backend.Lock | internal/backend/backend.go:420-435 | the repository is dropped for good |
| Backend.Backend.Initialize | internal/backend/backend.go:77-116 | it succeeds exactly if configuration, key and both snapshots are in order, and then unlocks with what is on disk; any failure, in particular a snapshot that does not load, locks; a second call only reports |
| Backend.Backend.StoreMessage | internal/backend/backend.go:354-386 | while unlocked, memory is the decoded disk before and after every call, also when the save fails after its rename, and its handles are the latest of those loaded and created; revision, notifications, creations and evictions change exactly when they should |
| Backend.Backend.StorePolled | internal/backend/backend.go:213-219 | unless there is an error, a polled message is appended at the end exactly if its handle is unknown, and otherwise changes nothing; existing records are never rewritten |
| Backend.Backend.OtherPushes | internal/backend/backend.go:349-352 | any number of pushes keeps the backend consistent and only adds to the creations |
| Backend.Backend.StoreBatch | internal/backend/backend.go:209-219 | with pushes coming in between: the new messages of a batch are created oldest first, stably, none of them after the first record the history rejects; without an error every message of the batch is valid and was created or has a handle that was known |
| Backend.Backend.PollMessages | internal/backend/backend.go:184-227 | whatever is pushed meanwhile: the loop takes all turns or ends with one that ends it, and logs for each just what `PollProgress` says; at every loop head the batches with something new equal the successful refreshes plus one if a refresh is pending; nothing is listed while one is pending; what is stored comes from the listing just made, oldest first, and is among the creations in that order; after a batch every listed message is valid and was created or has a known handle |
| Backend.Backend.PollTurn | internal/backend/backend.go:186-226 | one turn of the loop does this |
| Backend.PollProgress | internal/backend/backend.go:184-227 | the loop stops early only on a failed wait, a failed listing with a cancelled context or a storing error; a turn with a good wait, and no refresh pending or a successful one, lists; what is listed is stored or fails to be; a batch with something new is followed by a refresh |
| Polling.ListingStorableExactly | internal/backend/backend.go:209-219 | the history rejects no record of a listing, so that storing reaches its end, if and only if every phone number in it fits the address limit |
| Backend.Backend.ListEvents | internal/backend/backend.go:254-283 | exactly the last `limit` of all records of the wanted kinds, in order, bodies shortened; an error exactly for bad arguments or locked storage |
| Backend.Backend.LatestShown | internal/backend/backend.go:269-279 | the backward scan collects, reversed, the last records of the filtered history |
| Backend.Reverse | internal/backend/backend.go:280-282 | the swap loop reverses |
| Backend.Backend.SetConnectionState | internal/backend/backend.go:407-418 | the state alone changes; it is never `locked` while storage is unlocked |
| Backend.Backend.LossHidesLock | internal/backend/backend.go:144-160 | the state can read `degraded` while storage is locked, and `Initialize` then reports no error |
| Backend.Backend.SyncContacts | internal/backend/backend.go:318-332 | it succeeds exactly if the phone answered, the list is acceptable and the save succeeds, and then stores the sorted contacts; in any case history and notifications are untouched, in memory and on disk |
| Backend.PublicBody | internal/backend/backend.go:480-486 | a public body is within its limit; short bodies are unchanged, and of a longer one all but the last character is its beginning, the last an ellipsis |
| Backend.Public | internal/backend/backend.go:269-279 | a shown record differs from the stored one in its shortened body only |
| Backend.WithKind | internal/backend/backend.go:363-365 | a message without kind becomes `sms_received` and is otherwise unchanged |
| Backend.RecentWindow | internal/backend/backend.go:388-394 | recent is what has no time or is at most five minutes old and one minute ahead |
| BackendRuns.RunInv | internal/storage/repository.go:48-169 | from the first start on, over every run of interleaved calls, contact saves, crashes and restarts, every possible content of the disk can be opened, and non-empty handles are unique in memory and in all of it |
| BackendRuns.RestartsUnlock | internal/backend/backend.go:91-116 | a restart, after a crash at any point, unlocks if and only if its key lookup and file reads succeed, and memory is then the decoded history on disk |
| BackendRuns.DisagreeExactly | internal/backend/backend.go:366-377 | in every reachable state memory differs from the decoded disk if and only if the last save of this lifetime that renamed its file failed afterwards and was to change the history it started from |
| BackendRuns.MemoryIsDisk | internal/backend/backend.go:354-386 | in every reachable state, unlocked and with no `lock` due, memory is the decoded history on disk |
| BackendRuns.UnlockedMayDisagree | internal/backend/backend.go:366-377 | a run to an unlocked state in which memory and disk differ |
| BackendRuns.HistoryInCreationOrder | internal/storage/repository.go:127-155 | the handles in memory are the latest part of those loaded and then created, in order of creation; the evicted ones are the part before |
| BackendRuns.CreationsAreEvictionsPlusResident | internal/storage/repository.go:127-155 | in a lifetime that starts with an empty history: creations of a non-empty handle are its evictions plus one if resident |
| BackendRuns.NotifiedAtMostOncePerResidence | internal/backend/backend.go:378-386 | notifications of a handle never exceed that number, whatever the interleaving of push, replay and poll |
| BackendRuns.RecentCreationsAreNotified | internal/backend/backend.go:378-386 | if all messages are recent when announced, then once no announcement is due there are as many notifications of a handle as creations |
| BackendRuns.CallsCreateInOrder | internal/backend/backend.go:209-219 | what one goroutine's calls create, like those for a polled batch, is created in the order of the calls, whatever is pushed in between |
| BackendRuns.RunPushes | internal/storage/repository.go:103-138 | for each resident handle pushed in this lifetime the history holds just the record of its latest successful push |
| BackendRuns.PushedRecordStays | internal/storage/repository.go:103-138 | while the daemon runs, a pushed record stays as it is while resident until the next successful push; polls never overwrite it |
| Vcard.UnfoldLines | internal/pbap/vcard.go:161-182 | the loop equals deleting every newline followed by a blank in one pass and then splitting |
| Vcard.CollectIsDeleteFolds | internal/pbap/vcard.go:161-182 | gluing continuation lines and deleting folds are the same function |
| Vcard.UnfoldUndoesFolding | internal/pbap/vcard.go:161-182 | unfolding undoes any folding, with LF or CRLF (section 2.6 of RFC 2426) |
| Vcard.Unescape | internal/pbap/vcard.go:230-255 | the loop computes the escape automaton |
| Vcard.UnescapeUndoesEscape | internal/pbap/vcard.go:230-255 | unescaping undoes vCard text escaping for every string (section 4 of RFC 2426) |
| Vcard.UnescapeShrinks | internal/pbap/vcard.go:230-255 | unescaping never lengthens |
| Vcard.NormalizeAddress | internal/pbap/vcard.go:48-65 | the loop computes the normal form and its kind |
| Vcard.NormalizeIdempotent | internal/pbap/vcard.go:48-65 | normalising is idempotent, keeps the kind and never lengthens |
| Vcard.PhoneExactly | internal/pbap/vcard.go:48-65 | a phone number is exactly seven or more digits with separators, beginning with a digit, a plus sign or a parenthesis, and its normal form is its digits |
| Vcard.EmailParts | internal/pbap/vcard.go:43-65 | local and domain characters around an at sign, the domain with letters or digits at its ends, make an email whose normal form is lower case |
| Vcard.EmailIsParts | internal/pbap/vcard.go:43-65 | and every email is of that form |
| Vcard.ParseCard | internal/pbap/vcard.go:184-228 | the loop with its two sets equals folding the lines into a contact |
| Vcard.CardIsGood | internal/pbap/vcard.go:184-228 | any card gives a contact within every limit, whose addresses are normal forms without duplicates |
| Vcard.CheckCardSizes | internal/pbap/vcard.go:131-151 | the loop decides whether every raw card is within the limit |
| Vcard.Parse | internal/pbap/vcard.go:67-129 | the loop equals the scanner specification in result and in every error |
| Vcard.ScanKeepsGood | internal/pbap/vcard.go:84-128 | scanning keeps the count limit and the goodness of all contacts |
| Vcard.PhonebookIsGood | internal/pbap/vcard.go:67-129 | every parsed phonebook is within all limits, whatever the text |
| VcardRoundTrip.SpelledProperty | internal/pbap/vcard.go:189-197 | which property a line has depends neither on a group prefix nor on parameters nor on letter case |
| VcardRoundTrip.CardOfBody | internal/pbap/vcard.go:184-228 | a contact written as property lines is parsed back, with any groups, parameters, letter case, spellings of its addresses, and lines for other properties |
| VcardRoundTrip.PhonebookRoundTrip | internal/pbap/vcard.go:67-182 | contacts written as such vCards, folded in any way, are parsed back exactly |
| VcardRoundTrip.WrittenBookReadBack | internal/pbap/vcard.go:67-159 | without folds they also pass the check of raw card sizes |
| VcardRoundTrip.PlainlyIsWritten | internal/pbap/vcard.go:184-228 | every contact that can be stored can be written so |
| BMessage.MarkerIndex | internal/mapmsg/bmessage.go:56-63 | the first line equal to the marker after trimming and case folding, or -1 |
| BMessage.ParseHeader | internal/mapmsg/bmessage.go:69-121 | the loop gives, outside vCards, the last status, type and folder, and, inside, the last name and the first usable phone number or else email |
| BMessage.FindMessageBody | internal/mapmsg/bmessage.go:123-158 | the loop over indexes equals the scanner specification |
| BMessage.UnstuffLines | internal/mapmsg/bmessage.go:140-151 | the in-place loop unstuffs exactly the stuffed lines, joins and trims |
| BMessage.Parse | internal/mapmsg/bmessage.go:22-48 | the calls together compute the specification with its four errors, header fields and body; the body is within the byte limit |
| BMessage.BodyIsSmall | internal/mapmsg/bmessage.go:123-158 | the body has no more bytes than the whole file |
| BMessageRoundTrip.BodyRoundTrip | internal/mapmsg/bmessage.go:123-158 | a stuffed and embedded body is parsed back if and only if it survives |
| BMessageRoundTrip.OrdinaryBodySurvives | internal/mapmsg/bmessage.go:123-158 | line-by-line conditions under which a body survives, whatever vCards or `BEGIN:MSG` lines it holds |
| BMessageRoundTrip.FileRoundTrip | internal/mapmsg/bmessage.go:50-54 | the same for the lines of the downloaded file with LF, CRLF or CR: exactly the surviving bodies without carriage return come back |
| BMessageRoundTrip.ParseRoundTrip | internal/mapmsg/bmessage.go:22-48 | parsing a file within the limit, with LF, CRLF or CR, returns the header of the lines before the envelope and the body if and only if the body survives and has no carriage return |
| BMessageRoundTrip.DelimitersAreReserved | internal/mapmsg/bmessage.go:140-148 | every line that starts like a delimiter, in any letter case, is stuffed |
| HeaderRoundTrip.HeaderRoundTrip | internal/mapmsg/bmessage.go:69-121 | header lines with any indent, letter case and parameters give back the last status, type and folder outside the originator's vCard, and inside it the last name and the first phone number that is not blank, or else the first such email |
| BMessageFile.FileParses | internal/mapmsg/bmessage.go:22-48 | parsing a whole written file returns exactly those header fields and the body if and only if the body survives and has no carriage return |
| BMessageRoundTrip.AmbiguousLineLost | internal/mapmsg/bmessage.go:140-151 | a line of one space before `BEGIN:` or `END:` always loses that space |
| BMessageRoundTrip.ParsedBodyIsTrimmed | internal/mapmsg/bmessage.go:151-151 | no parsed body begins or ends with a space or newline |
| BMessageRoundTrip.EarlyEndLost | internal/mapmsg/bmessage.go:137-156 | a block cut off at an inner end marker never gives the body |
| MapClient.HandleAdded | internal/obex/map.go:57-135 | it succeeds exactly for a path of the session, a fetched file within the limit, and a complete bMessage with a block; every such record passes the history's checks, and its fields follow from path, header, body and properties |
| MapClient.ListRecent | internal/obex/map.go:189-259 | it fails exactly for a folder or limit that is not allowed, without a session, or when the phone does not answer; otherwise one record per entry up to the limit |
| MapClient.BaseFollowsSlash | internal/obex/map.go:127-127 | the handle is what follows the last slash of the object path |
| MapClient.FoldersAllowed | internal/obex/map.go:194-197 | both folder names are allowed, with space around them |
| Model.RecordLimits | internal/storage/repository.go:294-322 | the limits of messages and contacts in numbers |
| MapClient.PolledRecordValid | internal/obex/map.go:238-251 | a polled record passes the history's checks if and only if the normalised phone number is within the address limit |
| MapClient.LongSenderRejected | internal/obex/map.go:238-251 | a sender of 321 digits gives a record that the history rejects |
| MapClient.ParsedContactsValid | internal/storage/repository.go:181-190 | every phonebook parsed with the default limits passes the count, name and address checks of `ReplaceContacts` |

## Left out

- `Worker`, `Sessions` and `BackendRuns` model concurrency as transition systems on values; Go channels, mutexes and goroutines appear as atomic steps, and only `Sessions.Manager` and the sequential objects are classes.
- Wall-clock time: timeouts are cancellation steps that may happen at any moment, and the present time of a stored poll is arbitrary.
- Backend.Backend.PollMessages: pushes come in between its calls of `storeMessage`; that they also interleave inside `storeMessage` is the subject of `BackendRuns`.
- BackendRuns.RunInv: a history file that some other program wrote may repeat a handle, which `Open` does not check; the runs start from an empty state directory.
- Invalid UTF-8: JSON would replace it and change lengths, so the size and reload claims would not hold for it.
- Backend.Backend.SyncContacts: after a failed directory sync the contacts in memory and on disk may differ; the backend does not lock there, so agreement is stated for the history only.
- BackendRuns.MemoryIsDisk: the contacts in memory are not part of its state; those on disk are.
- BMessageRoundTrip.OrdinaryBodySurvives: sufficient only; the exact condition, which also admits a region that is closed and reopened inside the body, is that of `BodyRoundTrip`.
- VcardRoundTrip.WrittenBookReadBack: for names free of carriage returns, which text escaping leaves in place and the parser reads as line ends.
- VcardRoundTrip.SpelledProperty: parameters with a colon, even a quoted one, are not among those written; the code takes the first colon as the end of the parameters.
- HeaderRoundTrip.HeaderRoundTrip: for one originator vCard, with property names of letters and hyphens.
- `Reverse`, the unstuffing loop and the history slices work on sequence values; aliasing of Go slices and the defensive copies of contacts are not captured.
- `FindContacts`, `Counts`, `Status` and `Healthy`: simple reads.
- The connection loop of `Backend.Run`: its delays and the order of its state changes; `Backend.Backend.SetConnectionState` is the state change itself.
- `parseMAPTime` and `parseLiveMAPTime`: time parsing; the resulting instant is a parameter.
- Error texts, and unknown snapshot purposes: purposes are a closed datatype.
- File ownership, mode and symlink checks, temporary file names, and transfer polling: they are nondeterministic success or failure.
- The internals of AES-GCM, JSON, `strings.ToLower` on names and the Go scheduler: only the laws stated above are used.
- D-Bus transport, command line, desktop panel, notifications, keyring and one-time-password extraction: input, output and regular expressions without state of interest.
