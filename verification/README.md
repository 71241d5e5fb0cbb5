# Verification of Prislapp's protocols

Prislapp keeps shopping lists that can be edited offline and turns receipts into a private price history.
This project models the parts of it that hold state between requests, and proves what they keep over every run.
`dafny verify dfyconfig.toml` checks the whole project.

## What is modelled

**Offline lists.** The server (`ShoppingLists`, `ShoppingListService`) keeps lists, items, tombstones, one sequence
counter per account and a table of idempotency keys; requests go through savepoints and come back as a delta or a
snapshot. A device (`Replica`, `ShoppingListRepository`) keeps its rows, an outbox, conflicts and a cursor. The main
invariant (`Convergence.Tracked`) is that no row is out of sight: where device and server differ, the outbox names the
row or its sequence number lies above the stored cursor. Three steps of the code can break it, and each has its exact
condition, read off the tables and the replica: a sync that replays a mutation the server already has while the
mutation's rows are no longer in step (`DeviceSyncs.SyncKeepsIff`, `SyncConditions.QuietSyncKeepsIff`), a conflict settled
in favour of the server's version (`Discards.DiscardKeepsIff`), and a list fetched by REST that is written over newer
rows (`ServerLists.PersistKeepsIff`). `DeviceRuns.NoChangeIsLost` proves that over any run of the device and the others,
with requests committed between the sequence read, the list query and the item query of a sync, the invariant holds in
every state if and only if each of those steps met its condition. A sync whose cursor is refused never breaks it
(`DeviceSyncs.RefusedSyncKeeps`), but it keeps waiting mutations and moves the cursor past their rows, so that a later,
accepted sync does: if no refused sync sends a mutation the server already has, no sync of the run needs another condition
(`DeviceRuns.GuardedRunsLoseNothing`). `DeviceRuns.SyncConvergesIff` says when a sync ends with a replica equal to the
server. `Stranding` shows on concrete states that a row can be left behind for good: an item replayed after a refused
cursor, an item after a discarded conflict, and a list header after a discarded item conflict whose item itself ends up
equal to the server's. `ListAnswers` and `LocalAnswers` say of every request, edit and answer to a conflict what it takes
to be accepted and every field it leaves, and that the server makes of an edit what the user sees.

**Receipts and prices.** Drafts, confirmations and corrections are numbered revisions; only the current one publishes
prices, and a counter per account numbers the changes (`Receipts`, `ReceiptRevisionService`). The read side
(`PriceObservations`, `PriceSummaries`) reads back exactly what was published: `WriteReadAgreement` ties the two, and
`PriceSummaries.CacheKeyIsSound` proves over whole runs of list and receipt requests that the content revision, the
price data version, the day and the conditional flag determine the summary lines, whatever order the queries return
rows in, when an answer reads everything at one moment. `SummaryReads` separates the reads: it suffices that what commits
between them touches no line of a listed product. `TornReads` proves what an answer holds otherwise, a correction between
the two price queries included, exactly when it agrees with the other answers of its version (`TornReads.AgreesIff`), and
kinds of confirmations after which it never does. `PriceHistory` and `LatestPrices` prove what is made of those rows.
`PricingAnswers`, `ReceiptAnswers` and `ObservationAnswers` say in the terms of the request and the tables when a line has
a price and which, when a request is taken and every field it leaves, and what a purchase is read and shown as.

**OCR jobs.** A job and its receipt move together through publishing, claiming, lease expiry, completion, failure and
retry, with attempt ids that fence off late workers (`OcrOutbox`, `OcrRuns`, `OcrGuarantees`, `OcrWorker`). `OcrAnswers`
says what each call answers and writes, and how long a claim keeps other workers away (`OcrAnswers.LeaseHolds`).

**Refresh sessions.** Rotation with one forgiven replay and revocation of a family, and whose tokens everyone gets
(`RefreshSessions`, `AuthService`).

**Algorithms.** Keyset paging over a changing history (`Paging`), rotation of pixels (`ImageRotation`), detection of a
schema's revision (`SchemaDetection`), reading printed amounts (`MoneyText`, `MoneyRoundTrip`), a rate limit
(`RateLimiter`) and the backfill of the private catalog (`CatalogBackfill`, `CatalogReruns`, `CatalogClashes`).

Where the program updates rows in place the model is a class or a method with loops whose contracts equate the new
state with a function of the old one; the properties are proved about those functions. A request handler, a savepoint,
a claim or a token refresh is one step. Uuids, hashes and tokens are values that differ when their inputs differ; those
a handler draws, and the clock, are parameters.

## Where the code differs from what it says

- `backend/app/parsers/amounts.py:38-43` says that bare thousands such as `1.234` are ambiguous and rejected. The matcher
  takes `1.23` and the text is read as that; no text is ever reported as ambiguous
  (`MoneyRoundTrip.BareThousandsAreMisread`, `MoneyRoundTrip.NeverAmbiguous`). An amount of at least 1000 kr whose
  dots mark both thousands and decimals is read a hundredfold, and this is the only printed form that is misread.
- `backend/app/domain/price_history.py:214-237` reports a latest price as uncertain on some days on which every order the
  known times allow ends in the same price; `LatestPrices.CertainMisses` says exactly which.
- `backend/app/services/private_catalog_backfill.py:3` calls the backfill idempotent. A rerun inserts nothing, but it can
  change purchase counts once: a text that resolves to a product inserted in the same run updates a row that is not
  there yet (`CatalogClashes.RerunChangesNothingIff` says on which tables and lines, `CatalogReruns.RerunCanChange` gives
  a family of them).
- `backend/app/services/shopping_list_price_summary_service.py:99-112` reads the price data version after the prices it
  is to stand for, and `backend/app/services/price_observations.py:79-93` reads prices and lines one after the other: an
  answer can carry a new version with old lines or with a corrected price (`TornReads.ReadAcrossConfirmation`,
  `TornReads.StalePriceStays`, `TornReads.CheaperIsMissed`).
- A device can be left behind the server for good in the ways `Stranding` shows
  (`android/app/src/main/java/no/prislapp/data/repository/ShoppingListRepository.kt:405-434` and `483-570`), and in the one
  `ServerLists.LateAnswerIff` describes (`572-577` of the same file).

## Model

| member | source | states |
|---|---|---|
| ShoppingListLaws.HandleKeeps | backend/app/services/shopping_list_service.py:597-912 | Every accepted handler keeps the tables' invariant, only moves rows forward (versions, sequence numbers and tombstones never go back) and stamps each row its mutation names with a sequence number the account had not used |
| ShoppingListLaws.AddLinesKeeps | backend/app/services/shopping_list_service.py:685-737 | Copying lines into a new list keeps the invariant and the limit of 200 open items, one sequence number per line |
| ShoppingListLaws.RunKeeps | backend/app/services/shopping_list_service.py:466-593 | Any run of requests by any accounts keeps the invariant and never loses or rewinds a row, a sequence or a record |
| ShoppingListIdempotency.AtMostOnce | backend/app/services/shopping_list_service.py:924-998 | Over any run each (account, operation, mutation id) changes the tables at most once, and not at all once it is recorded |
| ShoppingListIdempotency.ResendChangesNothing | backend/app/services/shopping_list_service.py:502-518 | A fully accepted batch sent again, at any later time and after any other requests, is accepted again and changes no list, item, version, sequence or record |
| ShoppingListIdempotency.RejectedLeaveNoTrace | backend/app/services/shopping_list_service.py:474-518 | The state after a batch is the state after its accepted mutations alone: a rejected one leaves no trace and does not stop the others |
| ShoppingListIdempotency.SameVersionItemPatches | backend/app/services/shopping_list_service.py:878-912 | Once an item patch is applied, no other patch with the same expected version is ever applied to that item |
| ShoppingListIdempotency.SameVersionListPatches | backend/app/services/shopping_list_service.py:622-650 | The same for two patches of a list header |
| ShoppingListIdempotency.DeletionIsFinal | backend/app/services/shopping_list_service.py:622-650 | In any run a deleted list or item stays deleted and no written row disappears |
| ShoppingListIdempotency.AccountsAreSeparate | backend/app/services/shopping_list_service.py:1019-1060 | Requests of other accounts, whatever ids they carry, leave this account's rows and sequence alone |
| ShoppingListService.Service.NextSequence | backend/app/services/shopping_list_service.py:1160-1195 | The next sequence number of the account, one above the last, starting at 1 |
| ShoppingListService.Service.CreateList | backend/app/services/shopping_list_service.py:597-620 | Exactly the list creation of the specification: blank names, taken ids (own or foreign) and the stamped new row |
| ShoppingListService.Service.PatchList | backend/app/services/shopping_list_service.py:622-650 | Exactly the list patch of the specification, with its order of refusals, version and sequence bump |
| ShoppingListService.Service.CreateItem | backend/app/services/shopping_list_service.py:834-876 | Exactly the item creation of the specification: list state, reference, quantity, product ownership, id, the 200 limit, position and stamps |
| ShoppingListService.Service.PatchItem | backend/app/services/shopping_list_service.py:878-912 | Exactly the item patch of the specification, with its order of refusals |
| ShoppingListService.Service.InsertLines | backend/app/services/shopping_list_service.py:700-737 | The loop over copied lines inserts exactly the lines before the first invalid one, each with its own sequence number and position, and says where it stopped |
| ShoppingListService.Service.CopyList | backend/app/services/shopping_list_service.py:652-737 | A copied list with exactly its lines, or a refusal after which every earlier row is as it was |
| ShoppingListService.Service.ApplyMutation | backend/app/services/shopping_list_service.py:502-518 | One mutation behind its idempotency key and savepoint: the new state, or the old one untouched with the reported conflict |
| ShoppingListService.Service.Sync | backend/app/services/shopping_list_service.py:466-500 | The batch loop writes what applying the mutations one after the other writes and reports exactly the refused ones, or refuses all of them when the cursor is unusable |
| ListAnswers.CreateListAnswers | backend/app/services/shopping_list_service.py:597-620 | A list creation is refused with the first check it fails (blank name, foreign id, taken id) or leaves one new row, every field of it said, under the next number; no other row differs |
| ListAnswers.PatchListAnswers | backend/app/services/shopping_list_service.py:622-650 | A list patch is refused with the first check it fails or leaves the row with exactly the given fields changed, one version on |
| ListAnswers.CreateItemAnswers | backend/app/services/shopping_list_service.py:834-876 | An item creation is refused with the first of its nine checks it fails or leaves one row with the product, the stripped text, the quantity in thousandths, unit, mark and position asked for or one past the last open one, version 1; its list is only touched and no other row differs |
| ListAnswers.PatchItemAnswers | backend/app/services/shopping_list_service.py:878-912 | An item patch is refused with the first of its checks it fails or leaves the row with exactly the given fields changed, one version on |
| ListAnswers.AddLinesAnswers | backend/app/services/shopping_list_service.py:700-737 | The loop over copied lines stores every line as an unchecked item in its place and with its own number, or nothing, exactly as each line is usable and no id taken |
| ListAnswers.CopyListAnswers | backend/app/services/shopping_list_service.py:652-737 | A copy is refused with the first check it fails or leaves a new active list, named as asked for or like its source, with exactly the lines |
| ListAnswers.FirstAnswerIsFinal | backend/app/services/shopping_list_service.py:924-998 | Whatever happens in between, the same request under a key is answered as it was the first time and changes nothing, and any other is refused |
| ListAnswers.RecordsAreSeparate | backend/app/services/shopping_list_service.py:979-998 | Other accounts' requests neither use up a mutation id of this account nor change what is recorded under it |
| ListAnswers.SyncWriteAnswers | backend/app/services/shopping_list_service.py:466-500 | A sync with a refused cursor writes nothing and reports every mutation as such, in order; any other applies them |
| ListAnswers.RefusalCarries | backend/app/services/shopping_list_service.py:133-147 | What a refusal carries for the device: the server's list or item that stands in the way, or nothing |
| ListAnswers.CursorAnswers | backend/app/services/shopping_list_service.py:542-563 | A cursor is good for a delta exactly if it is of the version and the account, at most 90 days old and not ahead of the account; without one everything is sent, and with any other the mutations are refused |
| ListAnswers.BatchInOrder | backend/app/services/shopping_list_service.py:474-518 | The mutations of a batch take effect and are reported one after the other, each refusal with its id, its code and the row of the moment |
| Basics.TrimTrims | backend/app/services/shopping_list_service.py:1209-1214 | A stripped text is the given one without the spaces around it, and empty exactly if there is nothing else |
| Basics.SpacesAre | backend/app/services/shopping_list_service.py:1209-1214 | Exactly 29 characters count as spaces when a text is stripped |
| ReplicaLaws.ReceiveItemAt | android/app/src/main/java/no/prislapp/data/repository/ShoppingListRepository.kt:483-552 | A response overwrites exactly the delivered items that no waiting mutation names |
| ReplicaLaws.ReceiveListAt | android/app/src/main/java/no/prislapp/data/repository/ShoppingListRepository.kt:483-552 | A response overwrites exactly the delivered lists that no waiting mutation names; a list kept for its mutations is marked a draft exactly if the delivered one is archived or deleted |
| ReplicaLaws.SettleMember | android/app/src/main/java/no/prislapp/data/repository/ShoppingListRepository.kt:489-516 | Settling a batch leaves other outbox rows alone and keeps exactly the refused ones of its own, with the status the refusal calls for |
| LocalAnswers.DeliveredIsStored | android/app/src/main/java/no/prislapp/data/repository/ShoppingListRepository.kt:518-552 | Every delivered list and item that no waiting mutation names is stored as the server answered it, field by field and not as a draft; a named list stays, marked as a draft exactly if the delivered one is archived or deleted; of what is not delivered, a snapshot drops exactly what nothing names |
| LocalAnswers.SendableAnswers | android/app/src/main/java/no/prislapp/data/local/dao/MutationOutboxDao.kt:15-22 | A batch is the rows that wait or were under way, in their order; conflicts and blocked rows stay behind |
| LocalAnswers.ConflictsAfter | android/app/src/main/java/no/prislapp/data/repository/ShoppingListRepository.kt:489-516 | A refused mutation's conflict row says why and which row the server reported; one taken, or to be sent again, has none; the others stay |
| Convergence.TracksIff | android/app/src/main/java/no/prislapp/data/repository/ShoppingListRepository.kt:483-552 | Nothing is out of sight if and only if every list and every item is named by the outbox or in step: equal on both sides, stamped above the cursor, or absent from both |
| Convergence.OthersTrack | backend/app/services/shopping_list_service.py:1160-1195 | Other devices' commits put no row out of sight |
| Convergence.EditsTrack | android/app/src/main/java/no/prislapp/data/repository/ShoppingListRepository.kt:120-280 | Nor do offline edits |
| Convergence.OthersKeep | backend/app/services/shopping_list_service.py:1160-1195 | Other devices' commits also keep the rows of a mutation that will be sent again above the cursor |
| Convergence.EditsKeep | android/app/src/main/java/no/prislapp/data/repository/ShoppingListRepository.kt:120-280 | So do offline edits |
| SyncRuns.BatchStamps | backend/app/services/shopping_list_service.py:466-518 | Every mutation of a batch that the server has afterwards, new or replayed, left its rows stamped above the cursor the batch was sent with |
| SyncRuns.BatchReports | backend/app/services/shopping_list_service.py:470-518 | A batch never answers with an expired cursor of its own accord, and what it reports no conflict for is recorded |
| SyncRuns.BatchAnswers | backend/app/services/shopping_list_service.py:502-518 | A replay is never reported as a conflict although it changes nothing; any other mutation not reported has its rows stamped above every number handed out before the batch |
| SyncRuns.WriteKeeps | backend/app/services/shopping_list_service.py:466-500 | The server side of a sync keeps every differing row in sight of a device that has not heard the answer |
| SyncRuns.InFlightKeeps | android/app/src/main/java/no/prislapp/data/repository/ShoppingListRepository.kt:386-400 | So do edits made while a batch is under way, and every row of the batch stays in flight |
| SyncRuns.LostResponseKeeps | android/app/src/main/java/no/prislapp/data/repository/ShoppingListRepository.kt:386-403 | So does losing the answer after the server applied the batch, even with the process killed |
| SyncResponses.ListSettled | backend/app/services/shopping_list_service.py:577-593 | After a response built from separate sequence, list and item reads, a list that is not protected and not stamped above the new cursor equals the server's row |
| SyncResponses.ItemSettled | backend/app/services/shopping_list_service.py:577-593 | The same for items |
| SyncResponses.ResponseTracksIff | android/app/src/main/java/no/prislapp/data/repository/ShoppingListRepository.kt:483-552 | With others writing between its reads, a snapshot leaves nothing out of sight whatever the device held; a delta leaves nothing out of sight if and only if every row the settled outbox no longer names was in step at the old cursor |
| DeviceSyncs.SyncKeepsIff | backend/app/services/shopping_list_service.py:466-500 | A whole sync, with others writing between the sequence read, the list query and the item query and the user editing meanwhile, keeps every differing row in sight if and only if it answers with a snapshot, or each row that nothing but replays names was in step before, was edited meanwhile or was written by someone before it was read |
| DeviceSyncs.RefusedSyncKeeps | backend/app/services/shopping_list_service.py:470-473 | A sync whose cursor is refused never puts a row out of sight |
| DeviceSyncs.CursorLasts | backend/app/services/shopping_list_service.py:542-563 | The cursor a sync hands out is accepted for ninety days from when it was written, in every later state, for its own account and no other |
| SyncConditions.QuietSyncKeepsIff | backend/app/services/shopping_list_service.py:466-500 | For a sync nobody disturbs the condition is one on the tables and the replica before it: a snapshot, or every row that nothing but replays names is in step |
| SyncConditions.NothingTakenAfter | backend/app/services/shopping_list_service.py:470-518 | If the cursor is accepted, or the server has none of the mutations sent, the server has none of those that wait afterwards, whatever others and the user do meanwhile |
| SyncConditions.GuardedSyncKeeps | backend/app/services/shopping_list_service.py:470-518 | A sync under that guard puts no row out of sight, and leaves nothing for a later sync to trip over |
| DeviceRuns.KeepLocalKeeps | android/app/src/main/java/no/prislapp/data/repository/ShoppingListRepository.kt:405-434 | Resolving a conflict by keeping the local version puts no row out of sight |
| ServerLists.PersistKeepsIff | android/app/src/main/java/no/prislapp/data/repository/ShoppingListRepository.kt:351-365 | Writing a list fetched by REST over the replica puts no row out of sight if and only if each row of it is in step now or named by the outbox |
| ServerLists.LateAnswerIff | android/app/src/main/java/no/prislapp/data/repository/ShoppingListRepository.kt:572-577 | An answer of an earlier moment, such as one a sync has overtaken, is safe to write if and only if each of its rows is still the server's, written above the cursor since, or named by the outbox |
| ServerLists.PersistAnswers | android/app/src/main/java/no/prislapp/data/repository/ShoppingListRepository.kt:572-577 | A fetched list stands field by field as the server answered it, and each of its items as its last row in the answer; nothing else changes |
| DeviceRuns.StepKeepsIff | android/app/src/main/java/no/prislapp/data/repository/ShoppingListRepository.kt:351-434 | Every event of a run (others' requests, edits, lost answers, syncs, either button of a conflict, a list fetched by REST) keeps every differing row in sight, the syncs, discarded conflicts and fetched lists exactly under their conditions |
| DeviceRuns.NoChangeIsLost | backend/app/services/shopping_list_service.py:481-593 | Over any run, a row where device and server differ is in every state named by the outbox or stamped above the stored cursor, if and only if each sync, each discarded conflict and each fetched list met its condition |
| DeviceRuns.GuardedRunsLoseNothing | backend/app/services/shopping_list_service.py:470-518 | A run in which no sync with a refused cursor sends what the server has, and whose discards and fetched lists are safe, never loses a change: no sync needs another condition |
| DeviceRuns.NewDevice | android/app/src/main/java/no/prislapp/data/repository/ShoppingListRepository.kt:483-552 | A device that never synced starts within the invariant, whatever the server holds |
| DeviceRuns.CaughtUpIff | android/app/src/main/java/no/prislapp/data/repository/ShoppingListRepository.kt:386-403 | For a device with nothing to send at the account's current sequence, nothing is out of sight if and only if it holds exactly the server's rows |
| DeviceRuns.SyncConvergesIff | android/app/src/main/java/no/prislapp/data/repository/ShoppingListRepository.kt:386-403 | After any run, one undisturbed sync in which nothing is refused leaves an empty outbox, and a replica equal to the server, list by list and item by item in every field, if and only if it answered with a snapshot or every row that nothing but replays named was in step before |
| DeviceRuns.SyncConverges | android/app/src/main/java/no/prislapp/data/repository/ShoppingListRepository.kt:386-403 | In a guarded run such a sync always leaves a replica equal to the server |
| LocalEdits.UnsentItemSurvives | android/app/src/main/java/no/prislapp/data/repository/ShoppingListRepository.kt:518-549 | No delta or snapshot changes or drops an item a still-queued mutation names |
| LocalEdits.UnsentListSurvives | android/app/src/main/java/no/prislapp/data/repository/ShoppingListRepository.kt:518-549 | A list that is still named keeps every field and is at most marked a draft |
| LocalEdits.LeavesOutboxIff | android/app/src/main/java/no/prislapp/data/repository/ShoppingListRepository.kt:489-516 | A mutation leaves the outbox exactly when it was sent and the response reports no conflict for it |
| LocalEdits.MergeComposes | android/app/src/main/java/no/prislapp/data/repository/ShoppingListRepository.kt:599-605 | One folded patch does what the two patches did one after the other |
| LocalEdits.OfflineEditsFold | android/app/src/main/java/no/prislapp/data/repository/ShoppingListRepository.kt:440-466 | Any number of offline edits of an item leave one waiting patch that, laid over the row they started from, is exactly the local row |
| LocalEdits.ServerAgreesWithUser | backend/app/services/shopping_list_service.py:878-912 | The server's row after accepting the folded patch equals, field by field, the row the user saw, one version on |
| LocalAnswers.AddListAnswers | android/app/src/main/java/no/prislapp/data/repository/ShoppingListRepository.kt:120-144 | A new list: every field of its row, and one creation queued behind all others |
| LocalAnswers.NewListAgrees | backend/app/services/shopping_list_service.py:597-620 | The list the server made of it has its name up to the spaces around, its status and its version |
| LocalAnswers.AddItemAnswers | android/app/src/main/java/no/prislapp/data/repository/ShoppingListRepository.kt:146-209 | A new item is a product or a text and otherwise nothing happens; it stands one past the last open item, and a creation at that place is queued |
| LocalAnswers.NewItemAgrees | backend/app/services/shopping_list_service.py:834-876 | The item the server made of it equals the local row in every field, up to the spaces around its text |
| LocalAnswers.ItemEditAnswers | android/app/src/main/java/no/prislapp/data/repository/ShoppingListRepository.kt:211-249 | An item edit sets the one field it is about; the queued patch sets that field against the version held, or is the waiting one with the field set |
| LocalAnswers.ListEditAnswers | android/app/src/main/java/no/prislapp/data/repository/ShoppingListRepository.kt:251-278 | The same for the two edits of a list header |
| LocalAnswers.ListEditAgrees | backend/app/services/shopping_list_service.py:622-650 | The list header the server made of it has the name, status and mark the user sees, one version on |
| LocalAnswers.KeepLocalAnswers | android/app/src/main/java/no/prislapp/data/repository/ShoppingListRepository.kt:409-428 | Keeping the local version puts the same changes under a new id and at the reported version in the refused mutation's place; nothing else differs |
| LocalAnswers.RenewedIsCurrent | backend/app/services/shopping_list_service.py:622-912 | A patch renewed with the row the server holds is not refused for its version |
| LocalAnswers.TakeServerAnswers | android/app/src/main/java/no/prislapp/data/repository/ShoppingListRepository.kt:429-434 | Taking the server's version drops the mutation and its conflict and lays the reported fields over the item, those and no others |
| Stranding.ExpiredCursorCanStrand | android/app/src/main/java/no/prislapp/data/repository/ShoppingListRepository.kt:483-552 | A concrete run of two syncs: the refused one keeps everything in sight, the accepted one replays a patch whose item is no longer in step and leaves an empty outbox, a current cursor and a replica that differs from the server for good |
| Discards.DiscardKeepsIff | android/app/src/main/java/no/prislapp/data/repository/ShoppingListRepository.kt:405-434 | Taking the server's version of any conflict puts no row out of sight if and only if, in the tables and the replica before, the list and the item the discarded mutation named and the item the server's row is laid over are each named by another waiting mutation or in step once it is laid over |
| Discards.DiscardKeepsItemIff | android/app/src/main/java/no/prislapp/data/repository/ShoppingListRepository.kt:554-570 | For an item conflict: the list must be in step or named otherwise, and the row the conflict carried must still be the server's, unless the item is named otherwise or has changed above the cursor |
| Discards.DiscardKeepsListIff | android/app/src/main/java/no/prislapp/data/repository/ShoppingListRepository.kt:554-558 | For a list conflict the edited list stays as it is, so the device is in step exactly when that row is the server's, named otherwise or due |
| Stranding.DiscardCanStrandItem | android/app/src/main/java/no/prislapp/data/repository/ShoppingListRepository.kt:405-434 | A concrete state in which taking the server's version leaves an item behind with nothing left to repair it |
| Stranding.DiscardCanStrandList | android/app/src/main/java/no/prislapp/data/repository/ShoppingListRepository.kt:537-549 | A concrete state in which the conflict carries the server's current item, and taking it leaves the item equal but the list header behind, with an empty outbox and a current cursor |
| ShoppingListRepository.Repository.PersistServerList | android/app/src/main/java/no/prislapp/data/repository/ShoppingListRepository.kt:572-577 | The fetched list and its items are written over the local rows, the outbox is left alone |
| ShoppingListRepository.Repository.PatchItem | android/app/src/main/java/no/prislapp/data/repository/ShoppingListRepository.kt:440-466 | The local row changes and the patch is folded into the waiting one for the item, if there is one |
| ShoppingListRepository.Repository.TakeBatch | android/app/src/main/java/no/prislapp/data/repository/ShoppingListRepository.kt:386-396 | The sendable rows in order, marked as in flight |
| ShoppingListRepository.Repository.MarkBatch | android/app/src/main/java/no/prislapp/data/repository/ShoppingListRepository.kt:386-403 | Every row of the batch gets the new status, no other row changes |
| ShoppingListRepository.Repository.SettleBatch | android/app/src/main/java/no/prislapp/data/repository/ShoppingListRepository.kt:489-516 | The loop over the sent rows removes, re-queues or parks each one as the response says |
| ShoppingListRepository.Repository.ProtectedLists | android/app/src/main/java/no/prislapp/data/repository/ShoppingListRepository.kt:518-519 | The lists the waiting mutations name |
| ShoppingListRepository.Repository.ProtectedItems | android/app/src/main/java/no/prislapp/data/repository/ShoppingListRepository.kt:518-520 | The items the waiting mutations name |
| ShoppingListRepository.Repository.DropAbsentLists | android/app/src/main/java/no/prislapp/data/repository/ShoppingListRepository.kt:522-529 | A snapshot deletes exactly the absent lists that nothing protects |
| ShoppingListRepository.Repository.DropAbsentItems | android/app/src/main/java/no/prislapp/data/repository/ShoppingListRepository.kt:522-534 | A snapshot deletes exactly the absent items that nothing protects |
| ShoppingListRepository.Repository.StoreList | android/app/src/main/java/no/prislapp/data/repository/ShoppingListRepository.kt:537-549 | One delivered list with its items, protected rows skipped |
| ShoppingListRepository.Repository.Apply | android/app/src/main/java/no/prislapp/data/repository/ShoppingListRepository.kt:483-552 | The whole response applied in one local transaction equals the specified replica |
| ShoppingListRepository.Repository.ResolveConflict | android/app/src/main/java/no/prislapp/data/repository/ShoppingListRepository.kt:405-434 | Both answers to a conflict: a renewed mutation at the server's version, or the server's row |
| Pricing.EligibleIff | backend/app/domain/pricing.py:158-209 | A line is eligible exactly when it is an unconditional, identified product in kroner with a positive quantity of a known unit and a known total; it then has a price and a product |
| Pricing.PriceIsNear | backend/app/domain/money.py:13-22 | The stored unit price times the divisor gives the total back to half a millionth per unit |
| Pricing.PriceMonotone | backend/app/domain/pricing.py:183-194 | A larger total for the same quantity never gives a lower comparison price |
| Pricing.GramsAreKilograms | backend/app/domain/units.py:20-26 | A line weighed in whole grams is evaluated like the same line in kilograms |
| PricingAnswers.LineAnswers | backend/app/domain/pricing.py:128-209 | The basis by unit, each reason exactly when it applies and in the order of the checks, eligibility, and the price rounded to millionths, all in the terms of the line |
| PricingAnswers.DisplayedRounds | backend/app/domain/money.py:8-10 | A shown price is the stored one rounded to whole hundredths, halves away from zero |
| ReceiptLaws.NewAccount | backend/app/services/receipt_revision_service.py:742-754 | An account with nothing in it satisfies the invariant every run keeps |
| ReceiptLaws.QualifiedIsSound | backend/app/services/receipt_revision_service.py:516-556 | Every qualified line is sound: eligible means price, product and store, and its noted reasons say exactly why it is not |
| ReceiptLaws.TotalsAreHonest | backend/app/services/receipt_revision_service.py:207-258 | Balanced means within two hundredths of the printed total; only a larger, unaccepted gap refuses a confirmation, never a draft |
| ReceiptLaws.RepublishedCurrent | backend/app/services/receipt_revision_service.py:653-710 | After publishing, the receipt's current prices are exactly the new revision's and no other receipt's have changed |
| ReceiptLaws.DraftKeeps | backend/app/services/receipt_revision_service.py:558-616 | Saving a draft keeps the invariant and nothing that prices are read from changes |
| ReceiptLaws.ConfirmKeeps | backend/app/services/receipt_revision_service.py:313-391 | A confirmation or revision keeps the invariant, changes nothing confirmed and raises the price data version by one |
| ReceiptLaws.RunKeeps | backend/app/services/receipt_revision_service.py:313-415 | Over any run the confirmed revisions of a receipt are 1 to its version and never change, a draft is the next one, current prices are one per eligible line of the current revision, and the price data version grows by exactly the accepted confirmations and revisions |
| ReceiptLaws.AtMostOnce | backend/app/services/receipt_revision_service.py:434-464 | An accepted mutation id never takes effect again: the same request gets the stored reply, any other is refused |
| ReceiptLaws.OneConfirmationPerVersion | backend/app/services/receipt_revision_service.py:336-340 | Of two requests based on the same receipt version at most one confirmation is accepted, and nothing after it |
| ReceiptAnswers.RequestAnswers | backend/app/services/receipt_revision_service.py:265-391 | A request whose id is new is refused with the first check it fails (receipt, status for the operation, version, store, products, line ids, totals) and taken exactly if it fails none; then every row it leaves is said, field by field |
| ReceiptAnswers.RepeatAnswers | backend/app/services/receipt_revision_service.py:449-464 | A request whose id is recorded gets the stored reply if it is the same for the same receipt, is refused otherwise, and writes nothing |
| ReceiptAnswers.NoRaceInARun | backend/app/services/receipt_revision_service.py:404-414 | In no state a run leads to is the next revision confirmed already |
| ReceiptAnswers.ReconciliationAnswers | backend/app/services/receipt_revision_service.py:207-258 | The stored totals: the rounded sum of the known amounts, its rounded distance from the printed total, and the verdict and reason that follow |
| ReceiptAnswers.QualifiedAnswers | backend/app/services/receipt_revision_service.py:516-556 | A stored line keeps its input and place and has the basis, price, reasons and eligibility of its evaluation; without a store it counts nowhere |
| ReceiptAnswers.PublishedArePrices | backend/app/services/receipt_revision_service.py:680-710 | One row for each eligible, priced line, in order, with the line's and the revision's fields |
| ReceiptRevisionService.Service.Check | backend/app/services/receipt_revision_service.py:328-352 | The checks a request has to pass, one after the other |
| ReceiptRevisionService.Service.ReconcileTotals | backend/app/services/receipt_revision_service.py:207-258 | The totals, by a loop over the lines |
| ReceiptRevisionService.Service.Ledger | backend/app/services/receipt_revision_service.py:742-754 | The account's version, written down as 1 when first asked for |
| ReceiptRevisionService.Service.BumpPriceDataVersion | backend/app/services/receipt_revision_service.py:756-761 | One more than before |
| ReceiptRevisionService.Service.Qualify | backend/app/services/receipt_revision_service.py:516-556 | The loop qualifies every line in order |
| ReceiptRevisionService.Service.PublishPrices | backend/app/services/receipt_revision_service.py:653-710 | Exactly the receipt's old prices stop being current and one current price is added per eligible line, in order |
| ReceiptRevisionService.Service.Write | backend/app/services/receipt_revision_service.py:354-381 | The revision, its lines, the prices, the ledger and the receipt after an accepted request |
| ReceiptRevisionService.Service.Apply | backend/app/services/receipt_revision_service.py:313-415 | Replay, refusal or effect of a request, exactly as specified |
| PriceObservations.GroupPrices | backend/app/services/price_observations.py:96-144 | The loop groups the published rows by product, in order |
| PriceObservations.GroupLines | backend/app/services/price_observations.py:146-199 | The loop adds the lines not already seen as prices, in order |
| PriceObservations.Observations | backend/app/services/price_observations.py:67-94 | For every product its published prices followed by the lines none of them came from |
| WriteReadAgreement.EveryLineIsRead | backend/app/services/price_observations.py:67-94 | Every line of a current confirmed revision is returned for its product, as a price exactly when it is eligible |
| WriteReadAgreement.NoLineTwice | backend/app/services/price_observations.py:73-94 | No line is returned twice, and every row returned is the reading of one such line |
| WriteReadAgreement.Origin | backend/app/services/price_observations.py:146-199 | Each row of the answer stems from a line of a current confirmed revision of that product |
| WriteReadAgreement.RankedIff | backend/app/services/price_observations.py:33-60 | A row counts exactly when its purchase is dated, at a branch, and nothing but the date and, if asked for, a condition was noted; it then has a price, a date and a branch store |
| WriteReadAgreement.ConditionalAdds | backend/app/services/price_observations.py:33-45 | Asking for conditional prices changes no row that counted and adds exactly the dated branch purchases whose only reason was the condition |
| WriteReadAgreement.LoadedIsWellFilled | backend/app/domain/price_history.py:93-100 | What the loader returns keeps the promise the price history relies on: a comparable row has a price, a date and a store |
| WriteReadAgreement.SameReadings | backend/app/services/price_observations.py:67-199 | Two readings of the same confirmed revisions and prices, in any query order, have the same rows |
| ObservationAnswers.ReadingAnswers | backend/app/services/price_observations.py:33-199 | However a current line is read, as its price or as excluded history, every field of the row is the line's or its revision's, and its reasons are the line's that still count, then those about date and store |
| PriceHistory.BasisKeepsRows | backend/app/domain/price_history.py:107-135 | Every row is kept, only reasons may change, and the comparable rows that remain are exactly those of the chosen basis |
| PriceHistory.BasisIsMaximal | backend/app/domain/price_history.py:118-128 | No basis has more comparable rows than the chosen one |
| PriceHistory.ChosenIsNewestLeader | backend/app/domain/price_history.py:118-128 | The chosen basis is that of the newest purchase among the leading bases |
| PriceHistory.ApplyBasisIdempotent | backend/app/domain/price_history.py:107-135 | Applying the basis to its own result changes nothing |
| PriceHistory.BasisIgnoresOrder | backend/app/domain/price_history.py:107-135 | The chosen basis and the rows left to compare do not depend on the order of the rows |
| PriceHistory.LowestPrice | backend/app/domain/price_history.py:147-151 | The least price of the comparable rows, if there is one |
| PriceHistory.FirstPerStore | backend/app/domain/price_history.py:152-157 | The loop keeps the earliest purchase at the price for each store, oldest first |
| PriceHistory.HistoricalLowest | backend/app/domain/price_history.py:146-160 | The true minimum, with exactly the stores that charged it, each by its earliest purchase, oldest first |
| PriceHistory.LowestIsUnique | backend/app/domain/price_history.py:146-160 | There is one such answer, the same for every permutation of the rows |
| LatestPrices.DeterminedIff | backend/app/domain/price_history.py:214-237 | A price ends every order the known times allow exactly when all purchases that could be last cost it |
| LatestPrices.CertainIsSound | backend/app/domain/price_history.py:214-237 | When a latest price is certain, every order of that day's purchases consistent with the known times ends in it |
| LatestPrices.CertainIsExact | backend/app/domain/price_history.py:214-237 | With all times known, or none, a price is certain exactly when every consistent order ends in it |
| LatestPrices.CertainMisses | backend/app/domain/price_history.py:214-237 | A determined price is reported as uncertain exactly when some but not all times are known, the day had several prices and all purchases that could be last cost the same |
| LatestPrices.UncertainThoughDetermined | backend/app/domain/price_history.py:235-237 | A concrete day on which that happens |
| LatestPrices.LatestIsHonest | backend/app/domain/price_history.py:188-211 | The reported day is the last; a certain price is determined, otherwise the range is the exact minimum and maximum of that day |
| LatestPrices.LatestAnswers | backend/app/domain/price_history.py:188-237 | Every field of a store's entry, in the terms of the last day's purchases, cheapest first: the certain purchase or the range, the common condition, the count and the sources |
| LatestPrices.ReportInOrder | backend/app/domain/price_history.py:185 | Entries come in the order of the stores' names and then of their ids |
| LatestPrices.LatestIgnoresOrder | backend/app/domain/price_history.py:188-211 | A store's latest does not depend on the order of its rows |
| LatestPrices.GroupByStore | backend/app/domain/price_history.py:179-182 | The loop groups exactly the comparable rows by store, in order |
| LatestPrices.LatestPerStore | backend/app/domain/price_history.py:177-185 | Exactly one entry for each store with a comparable purchase, made of that store's rows alone, by name |
| LatestPrices.LatestPerStoreIsUnique | backend/app/domain/price_history.py:177-185 | There is one such answer, the same for every permutation of the rows |
| PriceSummaries.Line | backend/app/services/shopping_list_price_summary_service.py:122-142 | One line of the summary: the minimum of the chosen basis, the reason when there is none, and the number of stores |
| PriceSummaries.Summarize | backend/app/services/shopping_list_price_summary_service.py:87-120 | The whole answer for any order in which the queries return their rows |
| ObservationAnswers.SummaryLineAnswers | backend/app/services/shopping_list_price_summary_service.py:122-167 | A line repeats its item and shows the first of the cheapest purchases that count, with its rounded price, store, day and age, or says why there is none; it counts the stores that did |
| ObservationAnswers.SummaryAnswers | backend/app/services/shopping_list_price_summary_service.py:183-194 | A summary has exactly one line for each open item of the list, by position and then by id |
| PriceSummaries.SameRevisionSameItems | backend/app/services/shopping_list_service.py:915-920 | An equal content revision means that no item of the list has changed, been added or removed |
| PriceSummaries.LineIgnoresOrder | backend/app/services/shopping_list_price_summary_service.py:122-142 | A line does not depend on the order of the purchases read for it |
| PriceSummaries.SameCountersSameSummary | backend/app/services/shopping_list_price_summary_service.py:87-120 | Two answers at moments with equal counters, day and filter are line by line the same |
| SummaryReads.UntouchedIsAtOnce | backend/app/services/shopping_list_price_summary_service.py:87-120 | An answer is that of one moment if no write of the list came between its reads and no confirmation between them touched a line of a product the list names, even when the version moved |
| SummaryReads.UndisturbedIsAtOnce | backend/app/services/shopping_list_price_summary_service.py:87-120 | So is one whose reads no write of the list and no confirmation came between |
| SummaryReads.UntouchedKeyIsSound | backend/app/services/shopping_list_price_summary_service.py:87-120 | Two such answers with equal counters, day and filter have equal lines, whatever was committed between them |
| SummaryReads.UntouchedAgrees | backend/app/services/shopping_list_price_summary_service.py:87-120 | Such an answer has the lines of every other answer of its version |
| ShownPrices.LineIff | backend/app/services/shopping_list_price_summary_service.py:122-142 | Two readings of a product give the same line if and only if they show the same number of stores and the same displayed minimum, basis, store and day of its first purchase, or the same reason why there is none |
| TornReads.TornReadHolds | backend/app/services/price_observations.py:79-93 | The purchases an answer holds for a product are the lines current at the second price query and every price current at the first, corrected since or not |
| TornReads.CorrectedIsReadTwice | backend/app/services/price_observations.py:79-93 | A correction between the two price queries makes the answer hold the purchase twice, at its old price and as the line that replaced it |
| TornReads.AgreesIff | backend/app/services/shopping_list_price_summary_service.py:87-120 | An answer, whatever committed between its reads, agrees with one read at the moment of its version if and only if every item shows the same in both readings |
| TornReads.ReadAcrossConfirmation | backend/app/services/shopping_list_price_summary_service.py:99-112 | When a confirmation commits between the prices and the version, the answer has the lines from before under the version from after |
| TornReads.CheaperIsMissed | backend/app/services/shopping_list_price_summary_service.py:99-112 | A purchase confirmed after the price queries, in the only basis that counts then and cheaper than all that was read in it, makes the answer differ from the other answers of its version |
| TornReads.StalePriceStays | backend/app/services/price_observations.py:79-93 | So does a correction, after or between the price queries, that takes away a price cheaper than all that is left in the only basis that counted |
| TornReads.LastPriceIsKept | backend/app/services/shopping_list_price_summary_service.py:99-112 | So does one that takes away the last purchase that counts |
| TornReads.FirstPriceIsMissed | backend/app/services/shopping_list_price_summary_service.py:99-112 | So does the first purchase of a product that counts |
| PriceSummaries.CacheKeyIsSound | backend/app/services/shopping_list_price_summary_service.py:87-142 | Over any run of list requests, drafts, confirmations and revisions, equal content revision, price data version, day and conditional flag give identical summary lines |
| OcrRuns.ClaimKeeps | backend/app/services/ocr_outbox.py:136-194 | Claiming keeps the invariant: at most one active job per receipt, active means the receipt waits, attempts are bounded and each status has its time |
| OcrRuns.CompleteKeeps | backend/app/services/ocr_outbox.py:197-240 | Completing keeps the invariant |
| OcrRuns.FailKeeps | backend/app/services/ocr_outbox.py:243-265 | Failing keeps the invariant |
| OcrRuns.ReconcileKeeps | backend/app/services/ocr_outbox.py:77-123 | A reconciliation keeps the invariant, whichever deliveries succeed |
| OcrRuns.RunKeeps | backend/app/services/ocr_outbox.py:47-265 | Every run of uploads, deliveries, reconciliations, claims, completions, failures, retries, confirmations and deletions keeps it, and every waiting receipt of a live account has a job |
| OcrGuarantees.ClaimSupersedes | backend/app/services/ocr_outbox.py:184-189 | A successful claim puts the attempt before it out of action |
| OcrGuarantees.LateWorkerChangesNothing | backend/app/services/ocr_outbox.py:307-325 | After that, in any later state of any run, the superseded attempt can neither complete nor fail anything |
| OcrGuarantees.ClaimHolds | backend/app/services/ocr_outbox.py:184-194 | A successful claim puts the work in the worker's hands and the receipt into processing |
| OcrGuarantees.HeldWorkCounts | backend/app/services/ocr_outbox.py:197-265 | Work that no later claim of the free job, report or deletion disturbed still counts after any run: its completion is stored and ends the job, its failure ends the job or puts it and the receipt back in line |
| OcrGuarantees.OneResultPerJob | backend/app/services/ocr_outbox.py:213-240 | Over any run a job stores at most one result |
| OcrGuarantees.ReviewIsNeverOverwritten | backend/app/services/ocr_outbox.py:169-175 | A receipt that is ready for review or confirmed keeps that status and its contents through any run, unless its owner confirms or deletes it |
| OcrGuarantees.JobsEnd | backend/app/services/ocr_outbox.py:177-187 | Each claim that finds a job free uses up an attempt or ends it and nothing gives one back: one claim more than the maximum ends any job |
| OcrGuarantees.EndedIsAnswered | backend/app/worker/tasks.py:37-52 | When a job has ended and its receipt still waits with its account alive, another job is at it |
| OcrGuarantees.DueIsPickedUp | backend/app/services/ocr_outbox.py:94-123 | A reconciliation selects an active job exactly from its due time on, and any worker it reaches then finds the job free |
| OcrGuarantees.EveryJobEnds | backend/app/services/ocr_outbox.py:94-194 | Whatever becomes of its claims (completion, failure, a lost worker, deletions), a job has ended after as many due reconciliations with a claim as it has attempts left, and a receipt that still waits then has another job |
| OcrGuarantees.StepDescends | backend/app/services/ocr_outbox.py:47-265 | Every event leaves a job alone or lowers its rank, attempts left first and then how far it is from its next claim, unless one attempt reports its failure twice |
| OcrGuarantees.FewChanges | backend/app/services/ocr_outbox.py:47-265 | If no attempt reports a failure twice, a job changes at most as often as its rank says, in any run |
| OcrAnswers.ClaimAnswers | backend/app/services/ocr_outbox.py:136-194 | A claim is turned away while the job's lease runs; otherwise the first thing in its way ends the job with its code, or the worker gets a new attempt of five minutes and the receipt is in process |
| OcrAnswers.LeaseHolds | backend/app/services/ocr_outbox.py:148-194 | After a claim that succeeded at t, in any run in which that attempt does not report, every other claim before t + 300 s changes nothing and gets nothing; from then on a claim gets the job exactly if account and receipt are there and an attempt is left, and otherwise ends it |
| OcrAnswers.CompleteAnswers | backend/app/services/ocr_outbox.py:197-240 | A completion of the current attempt: the job done and the receipt ready for review, ended for a deleted account, nothing without a receipt; any other attempt changes nothing |
| OcrAnswers.FailAnswers | backend/app/services/ocr_outbox.py:243-265 | A failure of the current attempt: final if permanent or the fifth, otherwise job and receipt wait again without a lease; any other attempt changes nothing |
| OcrAnswers.UploadAnswers | backend/app/services/receipt_service.py:26-59 | An upload leaves a waiting receipt and one pending job, every field said |
| OcrAnswers.RetryAnswers | backend/app/routers/receipts.py:257-275 | Only a failed receipt whose image is still there is retried; it waits again, with a new job unless one is open |
| OcrAnswers.EnqueueMissingAnswers | backend/app/worker/tasks.py:37-52 | A waiting receipt of a live account that never had a job gets one, and no other receipt does |
| OcrAnswers.PublishAnswers | backend/app/services/ocr_outbox.py:70-74 | Exactly the receipt's open pending job is marked when its message was delivered |
| OcrAnswers.ReconcileAnswers | backend/app/services/ocr_outbox.py:77-123 | What a reconciliation sends again, by status and age, and that exactly the delivered pending jobs of it are marked |
| OcrAnswers.ConfirmAnswers | backend/app/services/receipt_service.py:193-206 | Only a receipt ready for review is confirmed by the old route |
| OcrAnswers.DeletionAnswers | backend/app/services/receipt_service.py:261-283 | A deletion takes away its receipt, or its account, and nothing else |
| OcrWorker.Outbox.FindActive | backend/app/services/ocr_outbox.py:296-304 | The receipt's one active job, if any |
| OcrWorker.Outbox.EnqueueOcrJob | backend/app/services/ocr_outbox.py:47-67 | A new pending job unless one is active |
| OcrWorker.Outbox.PublishPendingForReceipt | backend/app/services/ocr_outbox.py:70-74 | The active job marked as published if its message was delivered and it was pending |
| OcrWorker.Outbox.ReconcileJobOutbox | backend/app/services/ocr_outbox.py:77-123 | The loop publishes exactly the overdue jobs that the broker took and counts them |
| OcrWorker.Outbox.ClaimOcrJob | backend/app/services/ocr_outbox.py:136-194 | The claim with all its outcomes, in order |
| OcrWorker.Outbox.CompleteOcrResult | backend/app/services/ocr_outbox.py:197-240 | The completion, fenced by the attempt id |
| OcrWorker.Outbox.FailOcrJob | backend/app/services/ocr_outbox.py:243-265 | The failure, fenced by the attempt id: back to pending, or final |
| OcrWorker.Outbox.StartReceipt | backend/app/worker/tasks.py:37-52 | A worker claims, or enqueues for a waiting receipt that never had a job and claims that |
| OcrWorker.Outbox.MissingJob | backend/app/worker/tasks.py:103-126 | True exactly for an uploaded receipt of a live account without any job |
| OcrWorker.Outbox.FinishReceipt | backend/app/worker/tasks.py:54-100 | A worker completes, or fails with the error's code, for good only when there was no text |
| RefreshSessions.RunKeeps | backend/app/services/auth_service.py:82-259 | In every run the replacement links of a family form one chain with one last session |
| RefreshSessions.RefreshSucceedsIff | backend/app/services/auth_service.py:191-259 | A refresh succeeds exactly for the live last session, or for its live direct predecessor while the last is live, which gets the same last token and changes nothing |
| RefreshSessions.ForeignTokenIsRefused | backend/app/services/auth_service.py:204-206 | A token the table does not hold is refused without a trace |
| RefreshSessions.DeadForever | backend/app/services/auth_service.py:207-232 | Once the last session is revoked, no token of the family is ever accepted again, whatever happens |
| RefreshSessions.OldTokenEndsFamily | backend/app/services/auth_service.py:215-232 | Presenting a live token that was replaced more than one step ago is refused and ends the family |
| RefreshSessions.LogoutEndsFamily | backend/app/services/auth_service.py:324-360 | Logging out with the last token, or everywhere, ends the family |
| RefreshSessions.LoginAnswers | backend/app/services/auth_service.py:82-110 | A login opens one session, the user's own and good for seven days, and answers with that user's tokens |
| RefreshSessions.UseAnswers | backend/app/services/auth_service.py:191-259 | Whoever is let in gets good tokens of the user the presented one was issued to: for an unused token those of a new session of seven days, for a used one those that replaced it; a good token that is refused ends its family, any other leaves no trace |
| RefreshSessions.LogoutAnswers | backend/app/services/auth_service.py:324-360 | A logout revokes exactly the user's presented session, and one everywhere exactly the user's sessions |
| RefreshSessions.FamilyIsTheUsers | backend/app/services/auth_service.py:82-259 | In any run every session of the family a login opened is of the user who logged in |
| AuthService.Service.IssueTokens | backend/app/services/auth_service.py:82-110 | A new family of one session |
| AuthService.Service.RefreshLocked | backend/app/services/auth_service.py:191-235 | The presentation of a token with all its outcomes |
| AuthService.Service.Logout | backend/app/services/auth_service.py:324-336 | Revokes the presented session of that user, and nothing otherwise |
| AuthService.Service.LogoutAll | backend/app/services/auth_service.py:338-350 | Revokes every session of the user that was not revoked yet |
| Paging.PageSize | backend/app/services/pagination.py:24-27 | The page size is 50 when none is asked for, and otherwise the limit asked for, brought between 1 and 100 |
| Paging.InOrderIsOrdered | backend/app/services/product_price_v2_service.py:254-256 | The two stable sorts put the history newest first, undated last, by id within a day |
| Paging.PageTakesNext | backend/app/services/product_price_v2_service.py:258-271 | A page takes the next rows after its cursor in order, full when there are more, and what it leaves lies behind the next cursor |
| Paging.WalkSeesEveryRowOnce | backend/app/services/product_price_v2_service.py:242-275 | Following the cursors while rows come and go between the pages, no row is seen twice, and at the end every row that was there throughout has been seen |
| Paging.PagesAreTheHistory | backend/app/services/product_price_v2_service.py:242-275 | On an unchanging history the pages joined are the whole sorted history, for any page size |
| Paging.WalkEnds | backend/app/services/product_price_v2_service.py:242-275 | A client that follows the cursors of an unchanging history gets all of it and comes to the end |
| ImageRotation.QuarterTurnIsClockwise | android/app/src/main/java/no/prislapp/data/receipt/ReceiptImageFormat.kt:186-187 | A quarter turn moves the top row to the rightmost column |
| ImageRotation.RotationsAdd | android/app/src/main/java/no/prislapp/data/receipt/ReceiptImageFormat.kt:172-194 | Rotating by a and then by b is rotating by their sum modulo 360 |
| ImageRotation.FourQuarterTurns | android/app/src/main/java/no/prislapp/data/receipt/ReceiptImageFormat.kt:172-194 | Four quarter turns give back the original pixels |
| ImageRotation.RemainderTruncates | android/app/src/main/java/no/prislapp/data/receipt/ReceiptImageFormat.kt:72 | What is left over when whole turns are taken off towards zero, with the sign of the angle |
| ImageRotation.CombinedIsBoth | android/app/src/main/java/no/prislapp/data/receipt/ReceiptImageFormat.kt:132-140 | One rotation by the combined angle is the camera's rotation followed by the user's, for any number of quarter turns either way |
| ImageRotation.TargetIsRight | android/app/src/main/java/no/prislapp/data/receipt/ReceiptImageFormat.kt:184-189 | Every write is inside the array and at the place the rotation gives that pixel |
| ImageRotation.TargetsDiffer | android/app/src/main/java/no/prislapp/data/receipt/ReceiptImageFormat.kt:184-189 | No place is written twice |
| ImageRotation.TargetsCover | android/app/src/main/java/no/prislapp/data/receipt/ReceiptImageFormat.kt:184-189 | Every place is written |
| ImageRotation.RotateRightAngles | android/app/src/main/java/no/prislapp/data/receipt/ReceiptImageFormat.kt:172-194 | The nested loops produce exactly the rotated image |
| SchemaDetection.IntroducedTables | backend/scripts/run_migrations.py:377-388 | The tables a revision creates: those it declares that no earlier one mentions |
| SchemaDetection.ObjectsAreDeclared | backend/scripts/run_migrations.py:377-398 | The objects collected for a revision are the tables it is the first to mention and every column it lists |
| SchemaDetection.CollectObjects | backend/scripts/run_migrations.py:391-398 | The revision's tables and columns, in order |
| SchemaDetection.MissingSchemaObjects | backend/scripts/run_migrations.py:419-439 | Exactly the revision's objects that the schema lacks, in order |
| SchemaDetection.DetectSchemaRevision | backend/scripts/run_migrations.py:442-469 | A revision is detected exactly when everything up to it exists and nothing later does, none exactly when nothing exists, and every other schema is refused with the revision to blame |
| SchemaDetection.PlaceIsUnique | backend/scripts/run_migrations.py:442-469 | A schema can be at one revision only |
| MoneyRoundTrip.FormMatches | backend/app/parsers/amounts.py:19-21 | The matcher, with all its backtracking over digit groups, takes a printed amount whole |
| MoneyRoundTrip.CleanedPrinted | backend/app/parsers/amounts.py:54-55 | Cleaning removes exactly the grouping spaces |
| MoneyRoundTrip.ReadsAs | backend/app/parsers/amounts.py:38-80 | What a printed amount is read as, in every form: its value, or a hundredfold when dots mark both thousands and decimals |
| MoneyRoundTrip.RoundTrip | backend/app/parsers/amounts.py:38-80 | Below the precision limit an amount printed plain or grouped, with comma or point, with or without a currency mark, is read back exactly if and only if dots do not mark both its thousands and its decimals |
| MoneyRoundTrip.NeverAmbiguous | backend/app/parsers/amounts.py:57-62 | No text is ever reported as ambiguous, and the context flag makes no difference |
| MoneyRoundTrip.MixedMatches | backend/app/parsers/amounts.py:19-21 | An amount whose thousands are grouped by separators of any kind here and there, or nowhere, is taken whole |
| MoneyRoundTrip.FoundIff | backend/app/parsers/amounts.py:19-21 | The matcher finds something in a text exactly if a digit, a decimal mark and two digits follow one another in it |
| MoneyRoundTrip.NothingIff | backend/app/parsers/amounts.py:44-52 | A text is empty exactly if it is blank, and without an amount exactly if none is found once the currency marks are gone |
| MoneyRoundTrip.BareThousandsAreMisread | backend/app/parsers/amounts.py:38-43 | Bare thousands such as 1.234 are read as 1.23 |
| RateLimiter.NoWindowHoldsMore | backend/app/services/rate_limit.py:68-77 | If any hit and the one the limit later are a window apart, no window of that length holds more than the limit |
| RateLimiter.NoRunExceeds | backend/app/services/rate_limit.py:68-77 | Over any run of hits of any keys, no window of a key's length holds more allowed hits than the key's limit |
| RateLimiter.HitAnswers | backend/app/services/rate_limit.py:68-77 | A hit is allowed exactly if fewer than the limit were allowed for its key in the window that ends with it, and then counts; no other key's hits change |
| RateLimiter.Limiter.NeverMore | backend/app/services/rate_limit.py:68-77 | The same in every state of the limiter |
| RateLimiter.PruneKeeps | backend/app/services/rate_limit.py:70-71 | Forgetting the stamps that are a window old forgets nothing that still counts |
| RateLimiter.Limiter.Recent | backend/app/services/rate_limit.py:70-71 | Exactly the stamps after the window's start, in order |
| RateLimiter.Limiter.AllowMemory | backend/app/services/rate_limit.py:68-77 | A hit is allowed exactly when fewer than the limit were allowed within the window up to now, and recorded then; no other key changes, and what has been allowed is what the run of hits so far allows |
| CatalogBackfill.DraftsTally | backend/app/services/private_catalog_backfill.py:128-209 | Every line belongs to exactly one draft, by match or by text; a draft counts exactly its own lines, carries their newest day, is named by the newest of them and has one alias per text and store |
| CatalogAnswers.NamedSinceBlank | backend/app/services/private_catalog_backfill.py:139-147 | A draft is named by the newest of the lines since it last had no name |
| CatalogAnswers.FoldedAliases | backend/app/services/private_catalog_backfill.py:148-149 | Each alias stands for its first line, with its text as printed there, in the order of those lines |
| CatalogAnswers.LegacyIdsAre | backend/app/services/private_catalog_backfill.py:212-218 | The products known by a match are exactly those stored with it, by owner and match |
| CatalogAnswers.UpdateAnswers | backend/app/services/private_catalog_backfill.py:261-305 | A draft that leads to a product, by its match or by its first known alias, gives the stored row its count and last day and nothing else, and records its new aliases for it |
| CatalogAnswers.InsertAnswers | backend/app/services/private_catalog_backfill.py:261-305 | A draft that leads to none becomes a new product with all its figures, and its new aliases are recorded for that |
| CatalogBackfill.CollectProducts | backend/app/services/private_catalog_backfill.py:174-209 | The loop over the lines, each added to its draft or to a new one |
| CatalogBackfill.Catalog.AddTargets | backend/app/services/private_catalog_backfill.py:287-305 | The loop over a draft's aliases: those already known stay as they are |
| CatalogBackfill.Catalog.WriteDraft | backend/app/services/private_catalog_backfill.py:261-291 | One draft: an update at once of the product it leads to, or an insertion for later, and its new aliases |
| CatalogBackfill.Catalog.WriteDrafts | backend/app/services/private_catalog_backfill.py:259-310 | The loop over all drafts with the insertions at its end |
| CatalogBackfill.Catalog.BackfillProducts | backend/app/services/private_catalog_backfill.py:250-310 | The products and aliases after a run |
| CatalogReruns.RunKeeps | backend/app/services/private_catalog_backfill.py:250-310 | A run keeps every row but for its figures and the unique keys, never lets an alias lead to another owner's product, and catalogues every line |
| CatalogReruns.RerunInsertsNothing | backend/app/services/private_catalog_backfill.py:236-310 | A rerun on the same lines inserts no product and no alias and keeps the identity of every row |
| CatalogReruns.ThirdRunChangesNothing | backend/app/services/private_catalog_backfill.py:236-310 | From the second run on nothing changes any more |
| CatalogReruns.LastDraftDecides | backend/app/services/private_catalog_backfill.py:278-308 | In terms of the first run: nothing changes exactly when the last draft that led to each inserted product has the figures it was inserted with |
| CatalogClashes.LeadsThereIff | backend/app/services/private_catalog_backfill.py:236-247 | A draft leads to a product inserted for another one exactly when it is a bare text whose first known alias is one that other, matched, draft was the first to have |
| CatalogClashes.RerunChangesNothingIff | backend/app/services/private_catalog_backfill.py:236-310 | A second run over the same lines changes nothing if and only if no matched draft without a stored product is joined, last, by a bare text with another count or day; the condition is read off the tables and lines given |
| CatalogReruns.RerunCanChange | backend/app/services/private_catalog_backfill.py:278-308 | Any product bought twice under a match and then as the same text without one, in the same store, counts 2 purchases after the first run and 1 after the second |

## Left out

Offline lists:

- ShoppingListService.Service.CopyList: the lines and ids a copy inserts are parameters, so how a source list maps to lines is not modelled; creating a list from a receipt materialises its lines the same way and is left out.
- Taken ids: an id the server draws itself and finds taken is answered like one a client chose; uuid collisions are not modelled.
- Stored replies: a list's reply holds the list without its nested items, and conflicts carry their code and the server's row without messages or field errors.
- Payload hash: a mutation with its id blanked out stands for its hash.
- Order of lists in a response: only which rows arrive is modelled, not their order; the local `createdAt` order of the outbox is its insertion order.
- ServerLists: the server side of creating a list from a receipt is not an event of its own; it writes what a copy with the same lines writes.
- Copying a list on the device, finishing a trip and adding a product again: they are series of the edits that are modelled.
- BLOCKED outbox rows: the status is declared by the app but never set.
- Numeric overflow of quantities, positions and sequence numbers in the database.

Receipts and prices:

- One account: receipts, products and stores of other accounts are absent rows and answer not found.
- Receipt rows: the raw names, the printed unit price, `confirmed_at`, and the date and total mirrored on the receipt row are not stored; deleting a receipt and concurrent requests inside one handler are not modelled.
- Arithmetic: amounts are `real`, prices are in millionths; the rounding of the quotient to 28 digits before the final rounding is not modelled.
- Catalog: products and stores do not change during a run of receipt requests.
- Row ids: the ids a reader sees are an injective naming of rows that are never rewritten.
- PriceSummaries.CacheKeyIsSound: every answer reads at one moment; SummaryReads and TornReads take the reads apart.
- Summary header: store names, disclaimers, the time of calculation and the policy version are not part of the answer.
- LatestPrices.LatestPerStore: the order of store names is a parameter, a number per store.
- Legacy v1 prices, fuzzy product matching and private product merging.

OCR jobs and sessions:

- OCR text, its parsing and the readiness check of the results: a completion only records that a result is stored; a completion for a job whose receipt is gone commits nothing, as in the code.
- Receipt ids are never used for a second receipt.
- Tokens: a refresh token is a value that names its session and an access token one that names its user; signatures, the life of an access token, password hashing, sign-in with a third party and the lock per family are left out. A password reset revokes sessions like logging out everywhere.

Algorithms:

- Paging: the cursor is the row's place itself; its encoding and the check of its scope are left out.
- ImageRotation: reading and writing image files and the mirrored EXIF orientations.
- SchemaDetection: stamping the version table and running migrations; the names of revisions differ.
- MoneyText: compatibility normalisation other than that of no-break spaces, digits outside ASCII, `extract_amounts_from_line` and the context words.
- RateLimiter.Limiter.AllowMemory: a key is always used with the same limit and window, and the clock does not run backwards; the Redis path is left out.
- CatalogBackfill: the normalised form of a text is part of the line, and the chain and provenance columns of an alias are not stored; private stores and account counters are inserted where missing and are left out as easy.

Elsewhere: HTTP routes and schemas, the user interface, background workers' transport, object storage, text recognition and the recognition of stores, items and totals.
