# Timeless, verified

This project models the parts of the Timeless CRM backend that are state machines or algorithms,
and proves what their code and documentation promise. One file holds one module.

- `sync_world`, `sync_engine`, `sync_safety`, `sync_theorems`, `sync_guard`, `sync_outcomes`,
  `version_guard`: the two-way sync ledger. A world of local records, remote pages, ledger rows and
  a journal evolves under user edits and deletes, remote edits, pushes and pulls, each with every
  failure its calls can have. The engine's methods compute the same steps on mutable fields.
- `notion_values`, `notion_mapping`, `notion_fields`, `notion_echo`, `sync_echo`: property values
  and mappings, field by field, and exactly when an echo changes a record.
- `company_dedupe`, `company_merge`: the merge of duplicate companies, in every map order and
  after every prefix of merges.
- `rate_limit`, `lockout`: fixed-window counters and failed-login locks over unbounded traces.
- `realtime_hub`: the hub's two indexes and the lifetime of its channels.
- `session_tokens`: single-use refresh tokens backed by two stores.
- `org_slug`: slugs and the retry loop for a free one inside a transaction that aborts on error.
- `route_patterns`, `route_guard`, `route_table`: compiled route patterns, the sorted permission
  table, and the repository's own table.
- `discovery`, `discovery_runs`: incremental discovery and the watermark.
- `credential_cipher`, `credential_rotation`: key-tagged ciphertext and its rotation.
- `totp`: one-time codes after RFC 4226 and RFC 6238.
- `wrappers`, `strings`, `decimals`: what several modules share.

Where the original changes state, a class method is proved against a function of the old state,
and the theorems are lemmas about that function over whole runs. Everything outside the program
(clocks, answers of databases and providers, randomness, cryptography) is an argument.

What the code does not keep is stated as an exact condition or a counterexample:

- Sync ledger: `UnseenEditIsOverwritten` with `GuardSeesEditsExactly` (a page that was never pulled
  is overwritten unseen, although backend/internal/integration/notion.go:98-104 promises
  otherwise), `OwnWriteRaisesConflict` with `OwnWriteLooksForeign` (a conflict need not mean that
  someone else edited), `FlaggedConflictEndsExactly` (the next push settles a flagged conflict,
  although backend/internal/syncengine/pull.go:219-221 leaves it to the queue), `OffsetHidesAnEdit`
  with `GuardIsRightExactly` (the version guard compares clock faces).
- Echo: `ClearedDomainComesBack` and `ClearComesBack` with `EchoKeepsRecordExactly` and
  `EchoRestoresExactly` (a field the user clears comes back from the page).
- Merge: `MiddleTagIsLost` with `TagsAreUnionedExactly` (tags are not always unioned, although
  backend/internal/dedupe/dedupe.go:32-33 says that no data is dropped).
- Limits and locks: `FullCounterResetsExactly`, `LostExpiryLocksOut`; `ThrottledExactly` (a failed
  write disables lockout, although backend/internal/service/auth.go:649-654 says it does not).
- Sessions: `SecondAcceptanceExactly`, `BlacklistOnlyLogout`, `LogoutRevivesASpentToken`.
- Discovery: `BrokenPageIsLost` and `EqualStampIsLost` with `NothingIsLostExactly` and
  `CommitCoversExactly`; `UnsavedIsReportedAgain` with `OnceEachExactly`;
  `StoppedNotesAreStoredTwice` with `NotesAreReports`.
- Others: `ReadableAfterChange`, `TwoSlashesMisfit` with `PatternReadsSegments`, `CountersExactly`.

## Model

| member | source | states |
|---|---|---|
| `SyncWorld.FindByInternal` | backend/internal/repository/synced_entity.go:31-40 | returns the first ledger row of the record, and nothing only if no row links it |
| `SyncWorld.FindByExternal` | backend/internal/repository/synced_entity.go:45-55 | returns the first ledger row of the external id, and nothing only if no row holds it |
| `SyncEngine.Engine.UpdatePage` | backend/internal/integration/notion.go:98-124 | a page edited after the expected version is a conflict and stays as it is; otherwise the write may be applied even if its answer is lost |
| `SyncEngine.Engine.CreatePage` | backend/internal/integration/notion.go:126-144 | a page whose id does not come back is an error to the caller, whether or not the provider made it |
| `SyncEngine.Engine.RecordFailure` | backend/internal/syncengine/push.go:298-304 | marks the row as failed unless that write is lost too, touching no other part of it, and logs the failure |
| `SyncEngine.Engine.MarkPushConflict` | backend/internal/syncengine/push.go:272-296 | a refused push marks the row both_changed and logs it, leaving page, LastSyncedAt and LastModifiedRemote alone; a record without a row gets one that links no page, unlogged |
| `SyncEngine.Engine.MarkPullConflict` | backend/internal/syncengine/pull.go:252-261 | a pull that finds both sides changed marks the row, and advances its LastModifiedRemote to the fetched version |
| `SyncEngine.Engine.ArchiveRemote` | backend/internal/syncengine/push.go:168-192 | a delete is ignored without a linked page, archives it otherwise, and still counts as a sync |
| `SyncEngine.Engine.AdapterPushes` | backend/internal/mapping/notion.go:71-79 | creates a page without an external id and overwrites the page otherwise; only an existing page can be refused, and the three answers exclude each other |
| `SyncEngine.Engine.DeliverRecord` | backend/internal/syncengine/push.go:211-270 | from the adapter on: a conflict is marked, with a row or without, any other error is recorded on the row if there is one, and a success settles the ledger |
| `SyncEngine.Engine.SettleRow` | backend/internal/syncengine/push.go:236-270 | a new row with version 1, or the old one linked, synced and a version higher; nothing is logged when the ledger write fails |
| `SyncEngine.Engine.PushOne` | backend/internal/syncengine/push.go:147-270 | the whole outbound handler computes the Push step in one atomic transition; its recursion into the delete case terminates |
| `SyncEngine.Engine.TakeRemoteVersion` | backend/internal/syncengine/pull.go:221-249 | the fields are saved before the ledger row, which may then be lost |
| `SyncEngine.Engine.PullRecord` | backend/internal/syncengine/pull.go:147-250 | the whole inbound handler computes the Pull step, every early exit included |
| `SyncSafety.PushKeepsInv` | backend/internal/syncengine/push.go:147-321 | every outcome of a push keeps the invariant of the ledger: keys, journal, versions and timestamps |
| `SyncSafety.PullKeepsInv` | backend/internal/syncengine/pull.go:147-286 | every outcome of a pull keeps that invariant; in particular its own save of the record is not later than the LastSyncedAt it writes |
| `SyncSafety.StepKeepsInv` | backend/internal/syncengine/push.go:112-321 | every event (user edit, user delete, remote edit, push, pull, and their failures) keeps the invariant |
| `SyncOutcomes.PushStops` | backend/internal/syncengine/push.go:147-205 | a push without integration, ledger, record or translation changes nothing: it is ignored without an active integration and an error otherwise |
| `SyncOutcomes.UnlinkedDeleteIsIgnored` | backend/internal/syncengine/push.go:174-177 | the delete of a record that no row links changes nothing |
| `SyncOutcomes.DeleteArchives` | backend/internal/syncengine/push.go:174-192 | a delivered delete, asked for or found when the record is gone, archives the linked page with its content, no other page, and completes a sync of the row if the ledger write goes through |
| `SyncOutcomes.LostDeleteFails` | backend/internal/syncengine/push.go:178-181 | a delete without an answer marks the row as failed and touches nothing else but, if it was carried out, the page |
| `SyncOutcomes.DuePushIsRefused` | backend/internal/syncengine/push.go:224-230 | a push of a page edited after the observed version leaves every page, and the row in conflict with its versions as they were |
| `SyncOutcomes.PushOverwrites` | backend/internal/syncengine/push.go:211-270 | any other delivered push of a linked record writes its payload over that page, no other, and settles the row |
| `SyncOutcomes.LostPushFails` | backend/internal/syncengine/push.go:231-234 | a push without an answer marks the row as failed, whether or not the page was written |
| `SyncOutcomes.FirstPushCreates` | backend/internal/syncengine/push.go:236-254 | the first push of a record makes a page of its payload and a row at version 1 that links it; without an id, an answer or the ledger write it is an error and no row |
| `SyncOutcomes.PullStops` | backend/internal/syncengine/pull.go:147-200 | a pull without ledger, row or integration changes nothing |
| `SyncOutcomes.FailedPullIsRecorded` | backend/internal/syncengine/pull.go:200-236 | a pull that cannot fetch the page or save its fields marks the row as failed and changes no record and no page |
| `SyncOutcomes.PullTakesNothing` | backend/internal/syncengine/pull.go:206-232 | a fetched page changes nothing when its record cannot be loaded, is gone, or takes no field from it |
| `SyncOutcomes.PullOfSavedRecordConflicts` | backend/internal/syncengine/pull.go:218-261 | a pull of a record saved since its last sync leaves both sides, and the row in conflict with the fetched version observed |
| `SyncOutcomes.PullTakesFields` | backend/internal/syncengine/pull.go:226-249 | any other pull puts the fields of the page into that record and no other, with the version observed and the row in agreement |
| `SyncTheorems.PullOverwritesOnlyPushedEdits` | backend/internal/syncengine/pull.go:206-249 | in every run, a pull that changes a record finds the payload of the user's last save of it already delivered by a push that was logged after it; a payload carries the fields the save has, never a clear |
| `SyncTheorems.PullRaisesConflictExactly` | backend/internal/syncengine/pull.go:206-230 | in every run, a pull flags a conflict if and only if the record changed after the last completed sync |
| `SyncTheorems.PushOverwritesOnlySeenVersions` | backend/internal/syncengine/push.go:211-234 | in every run, a checked push of a row with an observed remote version replaces exactly a version that a pull fetched and logged, and no other page; SyncGuard says what happens to the other rows |
| `SyncGuard.GuardSeesEditsExactly` | backend/internal/syncengine/push.go:211-222 | over any run without a push of the record or a pull of its page, the next checked push is due to be refused if and only if the ledger has observed a version at all, and the page was due already or edited since |
| `SyncGuard.PushesExactly` | backend/internal/integration/notion.go:98-124 | a checked, answered push is refused if and only if it is due to be; otherwise it overwrites what the page holds, and no other page |
| `SyncGuard.UnseenEditIsOverwritten` | backend/internal/syncengine/push.go:215-222 | counterexample: a record is saved and pushed, its page edited, the record saved again; the next push overwrites the edit, which no pull ever fetched |
| `SyncGuard.FlaggedConflictEndsExactly` | backend/internal/syncengine/pull.go:215-261 | after a pull flags a conflict, the next checked push is refused if and only if the flagged version had a timestamp and the page was edited once more; otherwise it overwrites the remote side the conflict was raised for |
| `SyncTheorems.PushStaysRefused` | backend/internal/integration/notion.go:98-120 | a refused push leaves the page and the row's LastSyncedAt and LastModifiedRemote as they were |
| `SyncTheorems.RefusedUntilPulled` | backend/internal/syncengine/pull.go:237-256 | once a push is refused, every later push of the record is refused, over any run without a pull of that page |
| `SyncTheorems.OwnWriteLooksForeign` | backend/internal/syncengine/push.go:255-263 | after a successful push the next one is refused if and only if the row had observed a remote version before: the engine takes its own write for a foreign one |
| `SyncGuard.OwnWriteRaisesConflict` | backend/internal/syncengine/push.go:255-263 | counterexample: save, push, pull, save, push; nobody edits the page in Notion, and the next push raises a conflict |
| `SyncTheorems.PushThenPullConverges` | backend/internal/syncengine/pull.go:200-249 | a push followed by a pull of the same page leaves the row synced and the next push unrefused, or changes nothing |
| `SyncTheorems.LookupsAgree` | backend/internal/repository/synced_entity.go:31-55 | in every run each record has at most one row and each external id too, none is empty, and both lookups find it |
| `SyncTheorems.RunAdvancesRows` | backend/internal/syncengine/push.go:255-296 | over any run rows are never removed or relinked, and version and LastSyncedAt never decrease |
| `SyncTheorems.VersionCountsHistory` | backend/internal/syncengine/push.go:306-321 | in every run a row's version is its number of push and pull history rows, up to the history and ledger writes the database lost; conflict implies both_changed |
| `SyncTheorems.SuccessIsSettled` | backend/internal/syncengine/push.go:211-270 | a push that succeeds wrote the translated record to the linked page and settled exactly that record's row |
| `SyncTheorems.RefusalHasARow` | backend/internal/syncengine/push.go:225-230 | in every world a refused push has a linked row, which is the one marked: the branch of markConflict that creates a row is never taken |
| `VersionGuard.FacesCompare` | backend/internal/integration/notion.go:111-118 | timestamps of one format compare as text exactly as the times their clocks show |
| `VersionGuard.GuardReadsTheClocks` | backend/internal/integration/notion.go:104-118 | the guard refuses if and only if the page's clock is ahead in whole seconds, or equal while the expected version is not written in UTC |
| `VersionGuard.GuardInUtc` | backend/internal/syncengine/push.go:211-222 | with the expected version in UTC the guard is the comparison of times in whole seconds |
| `VersionGuard.EarlierExactly` | backend/internal/integration/notion.go:111-118 | of two clocks on one offset, one shows less exactly when its instant is earlier, over months, leap years and years |
| `VersionGuard.GuardIsOffByTheOffset` | backend/internal/integration/notion.go:104-118 | the guard compares the page's instant with the expected one shifted by its offset, and refuses an equal one unless the offset is zero |
| `VersionGuard.OffsetMisleads` | backend/internal/syncengine/push.go:219-221 | for every version and every offset but zero: behind UTC the unchanged page is refused, ahead of it a later edit is let through |
| `VersionGuard.GuardIsRightExactly` | backend/internal/integration/notion.go:98-118 | the guard refuses exactly the pages edited later, whatever the edit, if and only if the expected version is written in UTC |
| `VersionGuard.OffsetHidesAnEdit` | backend/internal/syncengine/push.go:219-221 | counterexample: noon at +02:00 is ten o'clock UTC, and the guard lets an edit of eleven pass |
| `NotionValues.WriteOptions` | backend/internal/mapping/notion.go:121-140 | the option list holds the names in order, one object each |
| `NotionValues.ReadOptions` | backend/internal/mapping/notion.go:199-238 | the names come back in order; items without a name are skipped |
| `NotionValues.RichTextArrayPlain` | backend/internal/mapping/notion.go:269-291 | concatenates plain_text, or text.content where that is missing; nothing for no text |
| `NotionValues.NamesRoundTrip` | backend/internal/mapping/notion.go:121-238 | writing names and reading them back yields the same names |
| `NotionValues.RichTextRoundTrip` | backend/internal/mapping/notion.go:260-291 | a text survives being written and read back, and only the empty text yields nothing |
| `NotionValues.SerializeThenDeserialize` | backend/internal/mapping/notion.go:102-258 | for every property type and value, reading back what was written yields exactly the value Echo names, in either transport form of rich text |
| `NotionValues.RoundTrip` | backend/internal/mapping/notion.go:102-258 | the value itself comes back if and only if it is normal for its type, nothing if and only if it is blank, and writing what came back writes the same property |
| `NotionFields.WrittenTexts` | backend/internal/mapping/notion.go:102-166 | the property objects written for text types, literally, for every value: an empty text is an empty list or null |
| `NotionFields.WrittenScalars` | backend/internal/mapping/notion.go:128-144 | the same for numbers, check marks and dates, null for what is none |
| `NotionFields.WrittenLists` | backend/internal/mapping/notion.go:121-164 | the same for option and id lists, one object an item |
| `NotionFields.ReadScalars` | backend/internal/mapping/notion.go:171-258 | what is read from any content of a property that is no list |
| `NotionFields.RichTextIsJoined` | backend/internal/mapping/notion.go:269-291 | the items of a rich text are read in order and joined, plain_text before text.content |
| `NotionFields.ListIsRead` | backend/internal/mapping/notion.go:199-245 | names and ids are read in order, items without one skipped |
| `NotionMapping.EntriesForDirection` | backend/internal/mapping/mapping.go:115-123 | keeps the entries of the direction and the two-way ones, in order |
| `NotionMapping.ToExternal` | backend/internal/mapping/notion.go:28-46 | the payload of all outbound entries with a value, or an error at the first value that cannot be translated |
| `NotionMapping.FromExternal` | backend/internal/mapping/notion.go:48-69 | the fields of all inbound entries whose property is present and yields a value, later entries winning |
| `NotionFields.DirectionsAreKept` | backend/internal/mapping/mapping.go:115-123 | of each direction exactly the entries that go that way, or have no direction or both, are kept, in order |
| `NotionFields.PayloadFailsExactly` | backend/internal/mapping/notion.go:28-46 | a payload is refused if and only if some outbound entry has a present field and an unsupported type |
| `NotionFields.PayloadHoldsExactly` | backend/internal/mapping/notion.go:28-46 | for any mapping, a payload has a property if and only if some outbound entry of it has a field the record has |
| `NotionFields.LastEntryWrites` | backend/internal/mapping/notion.go:28-46 | ... and it is as the last of these entries writes its field |
| `NotionFields.FieldComesInExactly` | backend/internal/mapping/notion.go:48-69 | for any mapping, a field comes in if and only if some inbound entry of it has a property that yields a value |
| `NotionFields.LastEntryFills` | backend/internal/mapping/notion.go:48-69 | ... and it is what the last of these entries reads |
| `NotionMapping.Entity.CompanyToRecord` | backend/internal/mapping/extract.go:11-45 | the record holds exactly the company's extractable fields |
| `NotionMapping.Entity.ContactToRecord` | backend/internal/mapping/extract.go:48-77 | the record holds exactly the contact's extractable fields |
| `NotionMapping.Entity.SponsorToRecord` | backend/internal/mapping/extract.go:82-112 | the record holds exactly the sponsor's extractable fields, with the company's name only when it is loaded |
| `NotionMapping.Entity.ApplyToCompany` | backend/internal/mapping/extract.go:121-152 | required text is never emptied, optional fields are taken as they come, everything else stays |
| `NotionMapping.Entity.ApplyToContact` | backend/internal/mapping/extract.go:156-184 | the same for a contact |
| `NotionMapping.Entity.ApplyToSponsor` | backend/internal/mapping/extract.go:192-218 | the same for a sponsor, with amounts as numbers and percents truncated |
| `NotionEcho.TablesAreProper` | backend/internal/mapping/extract.go:11-218 | what each Apply function takes, the matching ToRecord function offers unconditionally, once |
| `NotionFields.CompanyAfterPull` | backend/internal/mapping/extract.go:121-152 | after a pull each of a company's eight nullable columns holds the incoming text, name and status the incoming text that is not empty, each what it held if there is none; nothing else changes |
| `NotionFields.ContactAfterPull` | backend/internal/mapping/extract.go:156-184 | the same for the nine fields of a contact |
| `NotionFields.SponsorAfterPull` | backend/internal/mapping/extract.go:192-218 | the same for the eight of a sponsor: the amount is the incoming number, the probability the same without its fraction |
| `NotionFields.CompanyOffers` | backend/internal/mapping/extract.go:11-45 | a company's record holds exactly its twelve fields, tags and score included, where they are present |
| `NotionFields.ContactOffers` | backend/internal/mapping/extract.go:48-77 | the same for the eleven fields of a contact |
| `NotionFields.SponsorOffers` | backend/internal/mapping/extract.go:82-112 | the same for the ten of a sponsor, without a blank company name |
| `NotionEcho.EveryEntryEchoes` | backend/internal/mapping/notion.go:28-69 | with two-way entries and distinct external names, what comes back on each entry is the echo of what was sent |
| `NotionEcho.InboundIsTheEcho` | backend/internal/mapping/notion.go:48-69 | with one entry a field, the field that comes back is exactly that entry's echo |
| `NotionEcho.AcceptedEcho` | backend/internal/mapping/extract.go:121-218 | taking an echo into a field leaves it as it was if and only if the entry is not a date entry on other text than a date |
| `NotionEcho.EchoKeepsRecord` | backend/internal/mapping/notion.go:28-69 | pushing a company, contact or sponsor and applying what the page returns leaves every field the record has unchanged, if no date entry rewrites a text |
| `NotionEcho.EchoKeepsFieldsExactly` | backend/internal/mapping/notion.go:28-69 | with one entry a field, every field the record has is unchanged if and only if no entry rewrites its field |
| `NotionEcho.PayloadHasExactly` | backend/internal/mapping/notion.go:28-46 | a payload has an entry's property if and only if the record has its field: a cleared field is never sent |
| `NotionEcho.RevivedComesBack` | backend/internal/mapping/extract.go:121-218 | a field the record lacks, for which the page still returns something its column accepts, holds that afterwards |
| `NotionEcho.EchoRestoresRecord` | backend/internal/mapping/notion.go:28-69 | without a rewrite and without such a field, any record comes back whole, several entries a field included |
| `NotionEcho.EchoKeepsRecordExactly` | backend/internal/mapping/notion.go:28-69 | with one entry a field, the whole record, the fields it lacks included, comes back as it was if and only if no entry rewrites its field and none revives a field the record lacks |
| `SyncEcho.PushWritesPage` | backend/internal/syncengine/push.go:236-270 | after a successful push the page the ledger links holds the payload of the record, over what it held before |
| `SyncEcho.WrittenPageEchoes` | backend/internal/mapping/notion.go:28-69 | for a record of any type: applying what comes back from the page it was written to leaves every field it has as it was |
| `SyncEcho.WrittenPageRestoresExactly` | backend/internal/mapping/notion.go:28-69 | the same for the whole record: it comes back as it was if and only if no entry rewrites a field of it, or revives one it lacks from what the page held before |
| `SyncEcho.WrittenPageCarries` | backend/internal/mapping/notion.go:28-46 | the page a push wrote carries every property of the payload, in transport form |
| `SyncEcho.EchoIsANoOp` | backend/internal/syncengine/pull.go:200-249 | in every run, a push of a record of any type followed by its own echo leaves every field it has unchanged and the row synced, and the next push is not refused; with one entry a field, the whole record is unchanged if and only if no field it lacks is revived from what the page held before |
| `SyncEcho.EchoRestoresExactly` | backend/internal/syncengine/pull.go:200-249 | in every run, with one entry a field, the record after a push and its own echo is the record before if and only if no entry rewrites a field of it or revives one it lacks |
| `SyncEcho.ClearIsNotSent` | backend/internal/mapping/notion.go:34-38 | an entry of a field the record lacks reads, after the push, what the page held before it |
| `SyncEcho.ClearComesBack` | backend/internal/mapping/extract.go:121-218 | counterexample for every mapping and field: saved with the field, pushed, saved without it, pushed and pulled, the record holds the field again |
| `SyncEcho.ClearedDomainComesBack` | backend/internal/handler/company.go:57-77 | counterexample: the domain a user clears is back after the engine's own echo |
| `CompanyDedupe.MergeStringSlices` | backend/internal/dedupe/dedupe.go:133-144 | returns the nonempty strings of both lists, each once, in order of first appearance |
| `CompanyDedupe.FirstAppearancesAreAUnion` | backend/internal/dedupe/dedupe.go:133-144 | that list is a union: exactly the nonempty strings, without repetition |
| `CompanyDedupe.KeyIsSameCompany` | backend/internal/dedupe/dedupe.go:67-74 | two companies have one key if and only if their normalized domains agree, or neither has one and their normalized names agree |
| `CompanyDedupe.CompletenessCounts` | backend/internal/dedupe/dedupe.go:90-111 | completeness counts a filled domain, website, description, employee count and LinkedIn URL and a nonempty enrichment, one each, and nothing else |
| `CompanyDedupe.PickPrimaryCompany` | backend/internal/dedupe/dedupe.go:79-88 | the most complete company of the group, the oldest among equals |
| `CompanyDedupe.PrimaryIsTheOldestBest` | backend/internal/dedupe/dedupe.go:79-111 | no member is more complete, and every older one is less complete |
| `CompanyDedupe.GroupShape` | backend/internal/dedupe/dedupe.go:34-65 | a group has a primary of its key, and its duplicates are its other members, distinct |
| `CompanyDedupe.MergeIsAStep` | backend/internal/dedupe/dedupe.go:113-131 | merging the next duplicate of any group, in any interleaving of groups, takes the snapshot of what was merged so far to the next one |
| `CompanyMerge.CompanyStore.MergeCompanyInto` | backend/internal/dedupe/dedupe.go:113-131 | one transaction: all four child tables are reassigned, tags and domain taken over and the duplicate dropped, or nothing happens |
| `CompanyMerge.CompanyStore.GroupByKey` | backend/internal/dedupe/dedupe.go:44-49 | every key maps to the companies that have it, oldest first |
| `CompanyMerge.CompanyStore.MergeGroup` | backend/internal/dedupe/dedupe.go:51-63 | merges all of a group but its primary, or stops at the failing merge with everything before it done |
| `CompanyMerge.CompanyStore.MergeDuplicateCompanies` | backend/internal/dedupe/dedupe.go:34-65 | in every map order the result is the same fully merged store, the merged count is companies less distinct keys and the groups found are the shared keys; a failure stops at a snapshot |
| `CompanyMerge.OneCompanyPerKey` | backend/internal/dedupe/dedupe.go:34-65 | the full merge leaves exactly one live company of each key there was |
| `CompanyMerge.EndInOneRowExactly` | backend/internal/dedupe/dedupe.go:34-65 | two loaded companies end in one row of the full merge if and only if their normalized domains agree, or neither has one and the names do; their children follow them |
| `CompanyMerge.SurvivorIsOldestBest` | backend/internal/dedupe/dedupe.go:79-88 | the row that is left is, of those that are one company, the oldest of the most complete |
| `CompanyMerge.SurvivingRow` | backend/internal/dedupe/dedupe.go:113-131 | it is the loaded row, but for a domain it lacked and tags, each of which it has from a company that is one with it |
| `CompanyMerge.LastDomainIsTaken` | backend/internal/dedupe/dedupe.go:121-124 | a domain that was lacking is that of the last duplicate with one |
| `CompanyMerge.ChildrenFollow` | backend/internal/dedupe/dedupe.go:113-131 | after any prefix of merges every child exists, and a child of a live company points at a live company with the key its company had |
| `CompanyMerge.NoCompanyIsLost` | backend/internal/dedupe/dedupe.go:113-131 | after any prefix of merges every company is either live or soft-deleted, never both |
| `CompanyMerge.FullCount` | backend/internal/dedupe/dedupe.go:34-65 | as many companies are left as there were distinct keys |
| `CompanyMerge.SecondRunMergesNothing` | backend/internal/dedupe/dedupe.go:34-65 | a second run finds one company a key, and every state it can reach is the one it found |
| `CompanyMerge.MergedRow` | backend/internal/dedupe/dedupe.go:113-131 | the row a group leaves is its primary with all its duplicates absorbed |
| `CompanyMerge.TagsAreUnionedExactly` | backend/internal/dedupe/dedupe.go:121-130 | after the full merge the row of a group with duplicates has every tag the group had if and only if each is on the primary or on the last duplicate merged |
| `CompanyMerge.MiddleTagIsLost` | backend/internal/dedupe/dedupe.go:34-65 | counterexample: three stored companies of one name, each with a tag, merge into the oldest, and the middle one's tag is in no row |
| `RateLimit.Limiter.HitKey` | backend/internal/middleware/ratelimit.go:84-98 | increments the key's counter and starts a window only on its first hit; a hit within a window never moves its end |
| `RateLimit.Limiter.Limit` | backend/internal/middleware/ratelimit.go:47-79 | admits on a Redis error, denies above either ceiling, and counts the burst only when the sustained counter let the request through |
| `RateLimit.AdmittedExactly` | backend/internal/middleware/ratelimit.go:47-79 | a request is admitted if and only if it has no key or no sustained counter, or is within its ceiling and within that of the burst counter if there is one and it can be reached |
| `RateLimit.CountedExactly` | backend/internal/middleware/ratelimit.go:47-98 | a request adds one hit to its sustained counter and, if that let it pass, one to its burst counter, the first of a window setting its end; no other counter changes |
| `RateLimit.FirstOfWindowAreAdmitted` | backend/internal/middleware/ratelimit.go:81-98 | of requests within one window of an empty counter exactly the first Limit are admitted |
| `RateLimit.OneWindow` | backend/internal/middleware/ratelimit.go:84-98 | while a window lasts a counter passes no more than its ceiling leaves |
| `RateLimit.IntervalBound` | backend/internal/middleware/ratelimit.go:84-98 | in any interval as long as the window at most 2*limit-1 hits pass, whatever came before |
| `RateLimit.IntervalBoundIsReached` | backend/internal/middleware/ratelimit.go:84-98 | that bound is reached |
| `RateLimit.FullCounterResetsExactly` | backend/internal/middleware/ratelimit.go:81-98 | a counter at its ceiling passes another hit of a run if and only if its EXPIRE went through and a hit comes after the window it set |
| `RateLimit.LostExpiryLocksOut` | backend/internal/middleware/ratelimit.go:88-94 | a counter at its ceiling whose EXPIRE was lost passes nothing ever again |
| `RateLimit.KeysAreApart` | backend/internal/middleware/ratelimit.go:52-66 | sustained and burst counters of one limiter never share a Redis key, nor do two keys |
| `RateLimit.AdmissionBound` | backend/internal/middleware/ratelimit.go:47-98 | after any history a key is admitted at most 2*Limit-1 times in any interval of length Window and 2*Burst-1 times in any of length BurstWindow, counting requests that met no Redis error |
| `Lockout.OrgPasswordGuard.Verify` | backend/internal/service/org_password.go:56-75 | a locked organization answers without checking; a wrong password adds one to the written counter and locks from the ceiling on; the right one resets both |
| `Lockout.OrgPasswordGuard.RecordFailure` | backend/internal/service/org_password.go:77-92 | counts the failure and, at the ceiling, sets the lock |
| `Lockout.Account.RecordFailedLogin` | backend/internal/service/auth.go:655-671 | counts the failure and, at the ceiling, sets the lock |
| `Lockout.Account.CompleteLogin` | backend/internal/service/auth.go:630-647 | resets the counter only after tokens were issued |
| `Lockout.Account.Login` | backend/internal/service/auth.go:553-590 | a locked account answers without checking; a wrong password adds one to the written counter and locks for the duration from the ceiling on, whatever the account's state; a login resets both; every other answer leaves them |
| `Lockout.Account.VerifyMFALogin` | backend/internal/service/auth.go:886-918 | on the same counter, with ticket, second factor and secret in order: a wrong code adds one and locks from the ceiling on, a login resets; every other answer leaves both |
| `Lockout.FailuresAreSpaced` | backend/internal/service/auth.go:655-671 | from the ceiling on, each counted failure is checked at least the lock duration after the one before |
| `Lockout.LockoutBound` | backend/internal/service/org_password.go:56-92 | without a reset the n-th failure that was written comes at least (n - MaxFailedLogins) * LoginLockoutDuration after the MaxFailedLogins-th |
| `Lockout.GuessesBalance` | backend/internal/service/auth.go:649-671 | every evaluated wrong guess is a written failure or a lost one |
| `Lockout.GuessBound` | backend/internal/service/auth.go:649-671 | over all evaluated guesses, written or not, the bound holds less one guess for each failure lost |
| `Lockout.LostFailuresAddGuesses` | backend/internal/service/auth.go:649-671 | that is reached: with k failures lost, MaxFailedLogins + k guesses are evaluated at one instant before the lock |
| `Lockout.VerdictExactly` | backend/internal/service/auth.go:553-590 | an attempt counts as wrong if and only if it is a wrong password where one is set, or a wrong code with ticket, second factor and secret in order; as right if and only if it logs in |
| `Lockout.MixedGuessBound` | backend/internal/service/auth.go:649-671 | the bound over wrong passwords and wrong codes of one account together, in any order: those beyond MaxFailedLogins and the lost ones cost a lock each |
| `Lockout.CeilingLocks` | backend/internal/service/auth.go:655-661 | MaxFailedLogins written wrong guesses, passwords and codes in any mixture, lock the account for the whole duration from the last on |
| `Lockout.ThrottledExactly` | backend/internal/service/auth.go:649-671 | every run that loses k failures is throttled as promised if and only if k is zero, or locks last no time |
| `Lockout.UnsavedFailuresAreFree` | backend/internal/service/auth.go:649-671 | failures that are not written leave the gate as it was, and while it is unlocked every one of any number of guesses is evaluated |
| `RealtimeHub.Hub.HandleRegister` | backend/internal/realtime/hub.go:75-82 | the client enters both indexes |
| `RealtimeHub.Hub.DropFromOrg` | backend/internal/realtime/hub.go:88-93 | the client leaves its organization's map, which goes when it empties |
| `RealtimeHub.Hub.HandleUnregister` | backend/internal/realtime/hub.go:84-96 | a registered client leaves both indexes and its open channel is closed; any further unregister does nothing |
| `RealtimeHub.Hub.TrySend` | backend/internal/realtime/hub.go:103-107 | a non-blocking send queues the event or, on a full queue, does nothing |
| `RealtimeHub.Hub.HandleBroadcast` | backend/internal/realtime/hub.go:98-110 | every member of the organization is offered the event, whatever the map order; the full ones are reported |
| `RealtimeHub.EveryRunIsConsistent` | backend/internal/realtime/hub.go:72-113 | in every interleaving both indexes hold the same clients, partitioned by organization without an empty part, and a channel is open exactly while its client is registered |
| `RealtimeHub.ConnectedExactly` | backend/internal/realtime/hub.go:72-113 | in every run the hub holds a client if and only if it registered and was not unregistered since, in its own organization's index and no other; its channel stands, and its connection took what it received |
| `RealtimeHub.QueuedInOrder` | backend/internal/realtime/hub.go:98-110 | a client is queued an in-order subsequence of its organization's events while registered, all of them if and only if its queue never overflowed |
| `RealtimeHub.ClosedStaysSilent` | backend/internal/realtime/hub.go:84-110 | a closed channel stays closed and is never sent to again |
| `SessionTokens.TokenService.GenerateTokens` | backend/internal/service/auth.go:1181-1240 | issues a token and writes its session row, or only logs that it could not |
| `SessionTokens.TokenService.RefreshToken` | backend/internal/service/auth.go:673-734 | accepts exactly the tokens that pass every check, spends them in both stores whatever those answer, and issues the next |
| `SessionTokens.TokenService.LogoutToken` | backend/internal/service/auth.go:945-954 | blacklists the token for a week and revokes its row, each as far as its store works |
| `SessionTokens.TokenService.LogoutAllSessions` | backend/internal/service/auth.go:984-990 | revokes every session row of the user |
| `SessionTokens.AcceptedAtMostOnce` | backend/internal/service/auth.go:673-734 | in every run in which each rotation revokes the row, or writes a blacklist entry that lasts and can be read whenever that token comes back, no refresh token is accepted twice |
| `SessionTokens.SecondAcceptanceExactly` | backend/internal/service/auth.go:673-734 | a spent token that comes back, after any calls between, is accepted a second time if and only if nothing since revoked its row and its blacklist entry is missing, lapsed or unreadable |
| `SessionTokens.NextPresentationExactly` | backend/internal/service/auth.go:702-734 | presented again at once it is accepted if and only if the row was not revoked, and the blacklist cannot be read or was written neither then nor before |
| `SessionTokens.LogoutAllIsFinal` | backend/internal/service/auth.go:984-990 | after logging out everywhere no token issued to the user before is ever accepted, whatever fails later |
| `SessionTokens.LogoutIsFinal` | backend/internal/service/auth.go:945-956 | a logout whose row is found and revoked is final, whatever follows |
| `SessionTokens.LoginIsGoodForARefresh` | backend/internal/service/auth.go:1181-1244 | the token of a login is accepted until it expires, after any calls that do not present it, log it out or log its user out everywhere |
| `SessionTokens.SessionsLiveAsRemembered` | backend/internal/service/auth.go:1181-1244 | in every run every session's token is a refresh token of its user and lives as long as its remember-me says, rotations included; no other token is ever accepted |
| `SessionTokens.BlacklistOnlyLogout` | backend/internal/service/auth.go:945-954 | a logout that only reached the blacklist is undone after a week: the token is accepted if and only if that has passed and it has not expired |
| `SessionTokens.LogoutRevivesASpentToken` | backend/internal/service/auth.go:945-954 | counterexample: a spent token that rests on the blacklist alone is accepted again after such a logout |
| `OrgSlug.SlugIsNormal` | backend/internal/normalize/normalize.go:23-26 | every slug is empty or runs of a-z and 0-9 joined by single dashes |
| `OrgSlug.NormalIsFixed` | backend/internal/normalize/normalize.go:23-26 | a text is its own slug if and only if it is in that form |
| `OrgSlug.SlugIsIdempotent` | backend/internal/normalize/normalize.go:23-26 | the slug of a slug is the slug |
| `OrgSlug.SlugLetters` | backend/internal/normalize/normalize.go:23-26 | a slug has exactly the letters a-z and digits of the lower-cased, trimmed text, in order |
| `OrgSlug.GapBecomesDash` | backend/internal/normalize/normalize.go:23-26 | a dash stands between two neighbouring ones if and only if something else stood between them |
| `OrgSlug.BaseLetters` | backend/internal/service/auth.go:414-425 | the requested text decides the slug if it has a letter or digit, else the name, else it is org |
| `OrgSlug.SuffixedIsNormal` | backend/internal/service/auth.go:429-434 | a slug with a dash and a hex suffix is still in normal form |
| `OrgSlug.Transaction.Insert` | backend/internal/repository/pgerr.go:9-25 | an insert needs a transaction that is not aborted, fails on a taken slug, and aborts it on any error |
| `OrgSlug.Transaction.RollbackTo` | backend/internal/service/auth.go:461-463 | restores the rows of the savepoint and the use of the transaction |
| `OrgSlug.TrySlug` | backend/internal/service/auth.go:436-463 | one attempt: the row is stored, or the slug is taken and the transaction usable as before, or an error other than that |
| `OrgSlug.CreateOrgWithUniqueSlug` | backend/internal/service/auth.go:414-467 | stores the first candidate that does not collide, as one row with a slug in normal form; at most 20 inserts, only ROLLBACK TO on an aborted transaction, and on exhaustion the rows as they were; without other errors it succeeds if and only if a candidate is free |
| `OrgSlug.UpdateKeepsDirectory` | backend/internal/service/organization.go:110-124 | changing a slug sets that of the one organization, keeps all slugs distinct and normal, and is refused as invalid exactly when nothing is left of it, as taken exactly when another organization has it |
| `OrgSlug.InsertKeepsDirectory` | backend/internal/service/auth.go:439-443 | inserting a free slug in normal form keeps all slugs distinct and normal |
| `OrgSlug.EveryTableIsADirectory` | backend/internal/service/organization.go:110-124 | in every run of registrations and slug changes from the empty table all slugs are distinct and normal |
| `OrgSlug.OwnSlugFindsIt` | backend/internal/service/auth.go:187-200 | in a table of distinct, normal slugs, looking an organization up by its own slug finds it |
| `OrgSlug.EveryOrganizationIsFound` | backend/internal/service/auth.go:187-200 | in every run of registrations and slug changes from the empty table, looking any organization up by its own slug finds it |
| `RoutePatterns.CompileRoutePattern` | backend/internal/middleware/routeguard.go:257-268 | the expression of the segments, parameters replaced, joined by slashes, with an optional slash at the end |
| `RoutePatterns.PatternReadsSegments` | backend/internal/middleware/routeguard.go:247-268 | the compiled pattern agrees with the segment-wise reading on every path if and only if it does not end in two slashes |
| `RoutePatterns.PatternMatchesExactly` | backend/internal/middleware/routeguard.go:247-268 | a pattern matches a path, each with or without a last slash, if and only if they have equally many segments, something stands where the pattern has a colon, and they agree elsewhere |
| `RoutePatterns.TwoSlashesMisfit` | backend/internal/middleware/routeguard.go:257-268 | the path on which a pattern ending in two slashes disagrees: itself, less one slash |
| `RoutePatterns.SplitJoin` | backend/internal/middleware/routeguard.go:257-268 | splitting joined slash-free segments gives them back |
| `RoutePatterns.AnyOverlap` | backend/internal/middleware/routeguard.go:247-268 | any two patterns have a path in common if and only if their segments are compatible position by position, where either may have one empty segment more |
| `RoutePatterns.OverlapIsCompatibility` | backend/internal/middleware/routeguard.go:247-268 | for patterns that do not end in two slashes that is: equally many segments, and each position equal or a parameter against something nonempty |
| `RoutePatterns.SlashesOverlap` | backend/internal/middleware/routeguard.go:257-268 | a pattern ending in two slashes shares a path with one of a segment less |
| `RouteGuard.CompileRoutePermissions` | backend/internal/middleware/routeguard.go:223-245 | whatever order the map is walked in, the table is its entries stably sorted by their colons; a key without a space is an error |
| `RouteGuard.StableSortedSorts` | backend/internal/middleware/routeguard.go:241-243 | the sort orders by rank and permutes |
| `RouteGuard.LookupPermission` | backend/internal/middleware/routeguard.go:272-279 | returns the permission of the first entry that serves the request |
| `RouteGuard.LookupFindsLeast` | backend/internal/middleware/routeguard.go:223-279 | the first match in the sorted table is the first entry, in walking order, among those of fewest colons that match |
| `RouteGuard.LookupIsLeast` | backend/internal/middleware/routeguard.go:223-279 | a request gets the permission of a matching entry with the fewest colons, and is refused only when none matches |
| `RouteGuard.CandidateExactly` | backend/internal/middleware/routeguard.go:223-243 | a key serves a request if and only if it is the request's method, a space and a pattern matching the path |
| `RouteGuard.LookupInWords` | backend/internal/middleware/routeguard.go:223-279 | a request gets the permission of a key that is its method and a pattern of its path, none of which has fewer colons, and is refused if and only if there is no such key |
| `RouteGuard.OrderFreeExactly` | backend/internal/middleware/routeguard.go:232-243 | the answer is independent of the map order if and only if the matching entries of fewest colons require one permission |
| `RouteGuard.NoOverlapIsOrderFree` | backend/internal/middleware/routeguard.go:232-243 | a table whose equal-rank entries of one method do not overlap answers every request alike in every order |
| `RouteTable.RowsDoNotClash` | backend/internal/middleware/routeguard.go:26-197 | in the repository's table no two entries of one resource, one method and equally many parameters overlap |
| `RouteTable.PathColons` | backend/internal/middleware/routeguard.go:241-243 | the colons of a table path are its parameters |
| `RouteTable.TableIsOrderFree` | backend/internal/middleware/routeguard.go:26-218 | the repository's table answers every request alike in every map order, whatever permissions its keys carry |
| `Discovery.TakePage` | backend/internal/integration/notion.go:270-287 | keeps the decodable results up to the first known one, and takes the newest timestamp from the very first |
| `Discovery.DiscoverAll` | backend/internal/integration/notion.go:249-298 | returns everything before the first known item of what the pages deliver, the newest timestamp seen, and a failure exactly when paging broke before a known item |
| `DiscoveryRuns.StreamServes` | backend/internal/integration/notion.go:254-297 | the pages deliver the feed up to the first failing page or the cap of 20 |
| `DiscoveryRuns.ReturnsNewerExactly` | backend/internal/integration/notion.go:249-298 | a run returns exactly the items newer than the watermark if and only if they fit on the pages before the first failure and the cap, and a newest-first prefix of them otherwise |
| `DiscoveryRuns.TwoThousandAreReached` | backend/internal/integration/notion.go:244-297 | without a failing page a run reaches the 2000 newest items, and is complete if and only if no more are new |
| `DiscoveryRuns.MergeConfig` | backend/internal/worker/integration_task.go:358-380 | the stored state is the old one overlaid with the new, details are replaced, every other key stays |
| `DiscoveryRuns.Worker.IngestContacts` | backend/internal/worker/integration_task.go:394-437 | stores the results before the first error, those that are there already not again |
| `DiscoveryRuns.Worker.IngestNotes` | backend/internal/worker/integration_task.go:482-500 | stores a note for every result before the first error, each time anew |
| `DiscoveryRuns.Worker.RunOnce` | backend/internal/worker/integration_task.go:83-165 | contacts are stored before notes, each up to its first error; only when both succeed are the results reported, and the watermark moves to the newest item only if the config is saved |
| `DiscoveryRuns.RunLeaves` | backend/internal/worker/integration_task.go:83-165 | what contacts, notes, reports and watermark are after a run without a first page, one stopped among the contacts or among the notes, and one that ingests all |
| `DiscoveryRuns.StoredWatermark` | backend/internal/integration/notion.go:365-371 | the watermark read back from the stored state is the text under it, and there is none where there is no text |
| `DiscoveryRuns.NothingIsLost` | backend/internal/worker/integration_task.go:154-161 | over any run of edits and syncs, failed ones included, everything at or below the watermark has been reported, if edits are stamped later than the watermark and committing runs skip no version |
| `DiscoveryRuns.NothingIsLostExactly` | backend/internal/integration/notion.go:249-298 | all along a run, everything at or below the watermark has been reported if and only if every new version is stamped later than the watermark, and at every commit the newer versions on pages not delivered were reported before |
| `DiscoveryRuns.UntimelyEditIsLost` | backend/internal/integration/notion.go:270-287 | a new version stamped no later than the watermark is never reported, whatever follows |
| `DiscoveryRuns.EqualStampIsLost` | backend/internal/integration/notion.go:270-287 | counterexample: one page is synced at time 5, another is edited at time 5; that edit is never reported |
| `DiscoveryRuns.CommittedRunReportsAll` | backend/internal/worker/integration_task.go:154-161 | a run that ingests leaves every version in the workspace reported if and only if it skips none |
| `DiscoveryRuns.CommitCoversExactly` | backend/internal/integration/notion.go:365-376 | a run that commits keeps everything at or below the watermark reported if and only if it is complete: every newer item is on a page before the first failure and the cap |
| `DiscoveryRuns.BrokenPageIsLost` | backend/internal/integration/notion.go:365-376 | a first run over 101 pages whose second request fails commits a watermark past the last one, which is never reported, whatever follows |
| `DiscoveryRuns.PassedOverIsFinal` | backend/internal/integration/notion.go:373-376 | a version at or below the watermark that was not reported never is, whatever follows |
| `DiscoveryRuns.NothingTwice` | backend/internal/worker/integration_task.go:154-161 | when every run that ingests something also saves its config no version is reported twice |
| `DiscoveryRuns.StepReportsOnce` | backend/internal/worker/integration_task.go:154-161 | a step keeps each version reported once and none of them still to come if and only if it is no unsaved run that ingests something |
| `DiscoveryRuns.OnceEachExactly` | backend/internal/worker/integration_task.go:154-161 | all along a run no version is reported twice or about to be if and only if every run that ingests something saves its config |
| `DiscoveryRuns.UnsavedIsReportedAgain` | backend/internal/worker/integration_task.go:154-161 | a run whose config was not saved is reported again by the next |
| `DiscoveryRuns.RunsStoreReports` | backend/internal/worker/integration_task.go:116-125 | in every run whatever was reported is stored, as a contact and as a note |
| `DiscoveryRuns.NotesAreReports` | backend/internal/worker/integration_task.go:482-500 | after any run the stored notes are exactly the reports if and only if no ingestion stopped among the notes |
| `DiscoveryRuns.StoppedNotesAreStoredTwice` | backend/internal/worker/integration_task.go:121-125 | an ingestion that stops among the notes moves neither watermark nor reports, and the next run stores the notes before the stop a second time |
| `CredentialCipher.TagRoundTrip` | backend/internal/security/crypto.go:90-100 | splitting yields a key id and payload if and only if the text is an eight-character id without a colon, a colon and the payload |
| `CredentialCipher.NewCredentialCipher` | backend/internal/security/crypto.go:39-62 | the keys of the current secret, of every previous one that is not blank, trimmed, and the legacy id |
| `CredentialCipher.CipherIsSound` | backend/internal/security/crypto.go:39-62 | the current key sits under its own id, and so does every other but the legacy one |
| `CredentialCipher.KnowsWhatItKeeps` | backend/internal/security/crypto.go:39-62 | the id of a secret is known if and only if it is the current one or some previous secret trims to it |
| `CredentialCipher.EncryptedIsCurrent` | backend/internal/security/crypto.go:82-122 | what is encrypted decrypts to the same text and needs no rotation |
| `CredentialCipher.CurrentExactly` | backend/internal/security/crypto.go:80-100 | ciphertext needs no rotation if and only if it is the current key id, a colon and a payload |
| `CredentialCipher.UntaggedOpensWithTheCurrentKey` | backend/internal/security/crypto.go:39-62 | ciphertext without a tag that the current secret sealed opens to its text, whatever previous secrets are kept |
| `CredentialCipher.ReadableAfterChange` | backend/internal/security/crypto.go:34-62 | after the secret changed, old ciphertext opens to the same text if the new cipher keeps the old secret, and not at all otherwise |
| `CredentialRotation.IntegrationService.RotateCredentials` | backend/internal/service/integration.go:142-178 | the rows and counters after a pass, with the exact row it stops at |
| `CredentialRotation.PassSoFar` | backend/internal/service/integration.go:142-178 | before the point of failure every stale row is re-encrypted to the same plaintext, every other row is untouched, and both counters are exact |
| `CredentialRotation.SucceedsExactly` | backend/internal/service/integration.go:142-178 | a pass succeeds if and only if every stale row decrypts, gets a nonce and is saved |
| `CredentialRotation.PlaintextsSurvive` | backend/internal/service/integration.go:142-178 | after any pass, failed or not, each row is untouched or re-encrypted, and its plaintext is what it was |
| `CredentialRotation.SecondPassRotatesNothing` | backend/internal/service/integration.go:142-178 | a pass without error counts exactly the stale rows and leaves none; a second pass rotates none |
| `CredentialRotation.StaleExactly` | backend/internal/service/integration.go:142-178 | a row is stale if and only if it holds ciphertext without the current key's tag |
| `CredentialRotation.PassLeavesCurrentTags` | backend/internal/service/integration.go:142-178 | after a pass without error every ciphertext carries the current key's tag |
| `Totp.MaskIsModulo` | backend/internal/security/totp.go:83-87 | masking with k ones keeps the k low bits |
| `Totp.OrIsSum` | backend/internal/security/totp.go:84-87 | or-ing a number into the free low bits of another adds it |
| `Totp.PutUintRoundTrip` | backend/internal/security/totp.go:77-78 | the eight counter bytes read back, big-endian, as the counter |
| `Totp.BinCode` | backend/internal/security/totp.go:83-87 | the masked, shifted and or-ed bytes stay in bounds and are the big-endian 31-bit value of section 5.3 of RFC 4226 |
| `Totp.Hotp` | backend/internal/security/totp.go:76-95 | the code is the truncated value modulo 10^6 in six digits |
| `Totp.CodeReads` | backend/internal/security/totp.go:89-94 | a code is exactly six digits, which read as the 31 low bits of the four bytes at the offset, modulo 10^6 |
| `Totp.ValidateTOTP` | backend/internal/security/totp.go:54-74 | accepts if and only if the secret decodes and the trimmed code is that of one of the three counters tried |
| `Totp.CountersExactly` | backend/internal/security/totp.go:65-67 | the counters tried are T-1, T and T+1 with T = floor(unix/30), as section 4.2 and section 5.2 of RFC 6238 have it, if and only if the time is in the second period or later |
| `Totp.WindowOfThree` | backend/internal/security/totp.go:65-71 | from the second period on the accepted codes are those of T-1, T and T+1 |
| `Totp.CodesTellValuesApart` | backend/internal/security/totp.go:76-95 | two counters have one code if and only if their truncated values agree |

## Left out

- HTTP handlers, GORM and SQL text, the Redis protocol, asynq, e-mail and storage providers, AI agents, configuration and the frontend: input and output or thin wrappers.
- CRUD services, analytics, CSV import, enrichment heuristics: easy members.
- Interleavings inside one handler: pushOne, PullRecord, RefreshToken and UpdatePageProperties are atomic steps. Check-then-write races are therefore not modelled.
- HandleEvent's loop over several mappings, and two mappings of one entity type sharing a ledger row: each entity type has one mapping. A record's type is part of the record, and the mapping is chosen by it.
- The ledger's clocks: events have strictly increasing times in whole seconds, the provider stamps each write to a page later than its previous version, ids of deleted records and of pages are not used again.
- The resolution of a conflict by hand, webhooks that trigger pulls, and SyncState's error text: not part of this model.
- SyncTheorems.PushOverwritesOnlySeenVersions: speaks of rows that have observed a remote version and of pages whose timestamp can be read; the code skips the guard otherwise, and for a row without an observed version SyncGuard.UnseenEditIsOverwritten shows the overwrite.
- SyncTheorems.RefusedUntilPulled: the record is not deleted meanwhile, since a delete is pushed without the guard.
- SyncTheorems.VersionCountsHistory: equality holds up to lost history writes and up to archivals whose ledger write was lost, both counted in the statement.
- ConflictState after a failure or an archive: the code leaves it as it was, and so does the model; nothing is claimed about it outside conflict.
- Leap seconds, and offsets that are not whole minutes: VersionGuard reads six clock fields and an offset in minutes.
- Field names are an enumeration of the fields of the three entities; float64 is an integer part and a fraction; pointers, integers and []interface{} as dynamic values of a record are not modelled.
- Company-name and domain normalization are arbitrary functions in the merge; idempotence of them is not used.
- Redis key collisions between differently named limiters; the limiter's identity functions (by IP, user, organization, e-mail).
- RateLimit.AdmissionBound: does not count the requests that a Redis error let through.
- Password hashing, and backup codes other than as the verdict of the second factor.
- Lockout.LockoutBound: counts failures whose row was written; Lockout.GuessBound counts every evaluated guess.
- The 256-slot queues are sequences with a receive position; WebSocket and SSE loops only take from them.
- Tokens have no id of their own: two issued to one user in the same second would be one string, so issues are in different seconds.
- Device labels, audit events and e-mails of the session service.
- OrgSlug.CreateOrgWithUniqueSlug: the context, the password hash and the plan of the row are not modelled, and the error kinds are one.
- Unicode case mapping and white space are functions with one law: a slug's characters are their own lower case and not white space.
- The text syntax of regular expressions and QuoteMeta: a compiled pattern is a list of pieces.
- RouteTable.TableIsOrderFree: the words of the table's paths are an enumeration with an injective spelling free of separators; the permissions are arbitrary.
- RouteGuard's handler and RBAC: not part of this model.
- Discovery of database schemas, rows and users, and pages deleted remotely. A discovered item stands for the contacts and notes made from it, so an ingestion stops between items; contacts count as stored by item, not by e-mail address.
- The status and last_error columns of an integration, sync runs, and the retry after a credential refresh.
- A version of a discovered page is its id and timestamp: two edits of one page with one timestamp are one version.
- Timestamps of the search endpoint are numbers, with 0 for the empty string; that texts of one format compare so is VersionGuard.FacesCompare.
- Untagged ciphertext after a change of the secret: it is opened with the new key, and nothing is claimed.
- AES-GCM, SHA-256, HMAC, base32 and JSON encoding are functions with the laws stated; key ids of the secrets in play do not collide.
- Go strings are sequences of characters, each one byte in lengths.
- Generation of secrets, backup codes and provisioning URIs.
