# Timekeep models

A verified model of the parts of Timekeep whose correctness depends on whole runs or on
text coming back unchanged. `dafny verify dfyconfig.toml` checks all of it.

- **Odoo webhook** (`Employees`, `Webhook`, `WebhookFields`, `WebhookRuns`, `WebhookInvariants`,
  `WebhookCommits`, `WebhookConvergence`, `WebhookRedelivery`, `WebhookSettling`, `WebhookRaces`). The handlers that fold create,
  write and unlink deliveries into the employee store and publish domain events. The store and
  the bus are objects; every handler is proved to move the pair as a step function says and to
  count exactly what it announced. On the step functions stand the results about runs: what
  every run keeps, conservation, publication after commit, redelivery, reordering, and create
  deliveries racing with lookup, insert and publication as separate steps. Storage calls may
  fail anywhere unless a lemma says otherwise.
- **UI barrel** (`Text`, `BarrelParser`, `BarrelClauses`, `BarrelPrinter`, `BarrelLayout`, `BarrelRoundTrip`,
  `BarrelTheorems`).
  The line parser for `export { … } from` and the generator with its section state, character
  by character, with the script's own header and section table.
- **PO filler** (`Substrings`, `PoCatalog`, `PoEscape`, `PoEntries`, `PoLayout`, `PoTheorems`,
  `PoWording`).
  The scanner for empty active entries and the global text replacement that fills them. A file
  is blocks with any number of empty lines between them: entries on one line each, entries whose
  msgstr is continued, and verbatim text (the header, obsolete entries, continued msgids). The
  format is that of the GNU gettext manual, section 3 "The Format of PO Files".
- **Device connections** (`DeviceState`), **audit actions** (`AuditActions`), **navigation**
  (`Navigation`), **times and settings** (`Clock`, `Settings`), **tokens** (`Tokens`).

`Backend` says what a store does beyond its interface: `uniquePins` (a write that gives a PIN
to two rows is refused) and `wholeRow` (an update stores every field). Results that need
either name it in their premise. `SHIPPED` is the pair's common behaviour: PINs are unique and
updates drop two columns.

## Where the code and its intent part

- The handlers deactivate an employee and change a PIN through `update_employee`, but both
  shipped stores write neither column there (`crates/timekeep-storage-sqlite/src/employees.rs:224-246`,
  `crates/timekeep-storage-postgres/src/employees.rs:212-234`). With them a webhook
  deactivation or PIN change is announced and never takes effect
  (`ShippedStoreKeepsPinAndFlag`). A write delivery announces only what the table shows exactly
  when no payload asks for either (`ShippedEventsFollowCommitsIff` for one payload,
  `ShippedWritesAreBackedIff` for a batch), and redelivery settles exactly then
  (`ShippedRedeliverySettlesIff`). One inactive payload for an active employee breaks both:
  `ShippedRetirementIsOnlyAnnounced`, `DeactivationRepeats`.
- One delivery is not always enough even for a store of whole rows, because a deactivation
  skips the other fields and a creation ignores the inactive flag: `OneDeliverySettlesIff`
  says exactly when it is, and `RenameWaitsForSecondDelivery` gives a delivery that is not. Two are
  enough when no PINs clash (`TwoDeliveriesSettle`). When they do, as many are as the batch still
  owes steps, at most two for each payload (`DeliveriesSettle`), and handing PINs along a chain of
  employees takes one for each (`ChainTakesAllDeliveries`).
- A failed lookup in `handle_create` is taken for "not synced yet"; `CreateStepKeepsUniqueIff`
  says exactly when that gives an external id a second row, and `FailedLookupDuplicates` does it.
- Order matters when two newcomers share a PIN (`TwoNewcomersCommuteIff`), and racing
  deliveries of one employee are safe exactly when they carry one PIN
  (`TwoDeliveriesAreSafeIff`).
- The barrel's sections go by directory name, so of two components sharing a listed name one is
  never written (`EmittedOnceIff`, `SharedDirectoryIsLost`).
- `msgid "(.+?)"` stops at the first quote, escaped or not. An entry whose msgid has a quote is
  listed under the part before it (`ListedIff`) and can never be filled (`QuotedIsNotFilled`,
  `QuotedEntryStaysEmpty`). The catalogues hold such msgids
  (`dashboard/src/locales/fr.po:121`, 429, 713, 3315, 3697 and 4251), and the dictionaries hold
  keys written for them (`scripts/fill_translations.py:405`, 407, 998, 1000).
- The late threshold is stored in seconds and shown in minutes, cut towards zero, so sending the
  settings back keeps it exactly when it is whole minutes (`SendingBackChangesNothingIff`). Updates
  show it as it was given exactly when the product fits 64 bits (`LateThresholdIsShownIff`). Nothing
  checks that; beyond it the release build wraps around, and the result is whole minutes exactly at
  every fifteenth wrap (`LateThresholdIsWholeIff`, `OverflowBreaksThreshold`).
- A newline in a translation is written as it is, which PO strings do not allow. The run still fills
  what it should and nothing else (`FillsExactlyKnownEntries`).
- The device list calls a device that was never in contact "disconnected", the detail view
  "offline" (`ViewsAgreeIff`).
- A time is documented as HH:MM; the reader also takes signs and any number of zeros
  (`OtherSpellingsAreRead`). The documented maximum of the poll interval is not checked by the
  handler, and the model does not check it either.
- A last comma in `export { A, } from` exports an empty name (`ValueLineIsRead` allows such clauses).
- `split_csv` is documented to give no list for empty input; it gives an empty list
  (`SplittingIsStable`).
- The audit table matches verbs in any capitals, the fallback for writes only in capitals, so a
  `post` the table does not place leaves no record (`AuditedIff`, `UnplacedRequest`).

## Model

| member | source | states |
|---|---|---|
| Employees.DecimalInjective | crates/timekeep-api/src/integration.rs:210 | Two Odoo ids print alike if and only if they are equal, so no two employees share an external id |
| Webhook.EmployeeStore.CreateEmployee | crates/timekeep-storage-sqlite/src/employees.rs:118-141 | Adds the row unless the call fails or an enforced PIN is taken, and then changes nothing |
| Webhook.EmployeeStore.UpdateEmployee | crates/timekeep-storage-sqlite/src/employees.rs:224-246 | Stores what the backend stores of the row with that id; an unknown id or a failing call changes nothing |
| Webhook.DetectChanges | crates/timekeep-api/src/integration.rs:351-370 | Answers with the row whose name, PIN and department are the payload's where it gives them (an empty department means none) exactly when one of them differs |
| WebhookFields.WriteTakesFieldsOver | crates/timekeep-api/src/integration.rs:265-289 | An accepted write that retires nobody takes over the name and PIN given and the department, empty meaning none; id, external id and flag stay; one EmployeeUpdated is published if and only if a field differs |
| WebhookFields.TakenPinIsRefused | crates/timekeep-api/src/integration.rs:279-283 | Where another row holds that PIN, nothing is stored or announced |
| WebhookFields.ShippedWriteTakesFieldsOver | crates/timekeep-storage-sqlite/src/employees.rs:224-246 | In the shipped stores name and department are taken over, the PIN stays, and the event names the PIN asked for |
| WebhookFields.RetirementTakesNothingOver | crates/timekeep-api/src/integration.rs:400-419 | A retirement leaves all other fields and announces the row's own PIN |
| WebhookFields.UnknownIsAdded | crates/timekeep-api/src/integration.rs:202-234 | A create or write for an unknown employee adds an active row with the payload's fields and a fresh id and announces it, unless it has no PIN or an enforced PIN is taken |
| WebhookFields.KnownIsSkipped | crates/timekeep-api/src/integration.rs:212-215 | A create for a known employee changes and announces nothing |
| WebhookFields.ExternalIdReadsBack | crates/timekeep-api/src/integration.rs:210 | An external id is the decimal numeral of its Odoo id |
| Webhook.HandleCreate | crates/timekeep-api/src/integration.rs:195-238 | The loop ends in the world the batch function gives; `created` is the number of EmployeeCreated and nothing else is announced |
| Webhook.SyncCreateFromWrite | crates/timekeep-api/src/integration.rs:373-397 | A write for an unknown employee creates and announces it, counted as updated, unless it has no PIN |
| Webhook.SyncDeactivate | crates/timekeep-api/src/integration.rs:400-419 | Counts a deactivation exactly when it announces the deactivate and remove pair |
| Webhook.HandleWrite | crates/timekeep-api/src/integration.rs:240-300 | The loop ends in the world the batch function gives; `updated` is created plus updated events, `deactivated` is both the deactivated and the remove-requested events |
| Webhook.HandleUnlink | crates/timekeep-api/src/integration.rs:302-328 | Writes no row; `removed` is the number of pairs announced |
| Webhook.OdooEmployeeEvent | crates/timekeep-api/src/integration.rs:176-191 | `create`, `write` and `unlink` do what their batches do; any other event type changes nothing |
| WebhookRuns.RunIsJobs | crates/timekeep-api/src/integration.rs:182-190 | A run of deliveries is the run of its single payloads |
| WebhookRuns.JobMoves | crates/timekeep-api/src/integration.rs:202-323 | Whatever fails, one payload leaves the table, adds one fresh active row, retires or edits the row it names, or only announces |
| WebhookInvariants.RunsNeverReactivate | crates/timekeep-api/src/integration.rs:265-279 | Over every run no row is lost, ids and external ids stay, and no inactive employee is active again |
| WebhookInvariants.DeliveriesTouchOnlyNamedRows | crates/timekeep-api/src/integration.rs:248-291 | Rows whose external id the delivery does not name are exactly as they were; unlink writes no row |
| WebhookInvariants.ShippedStoreKeepsPinAndFlag | crates/timekeep-storage-postgres/src/employees.rs:212-234 | In the shipped stores no run ever changes a row's PIN or active flag |
| WebhookInvariants.UnlinkAnnouncesOnly | crates/timekeep-api/src/integration.rs:309-324 | Unlink publishes exactly the remove and deactivate pair of each id found, and writes nothing |
| WebhookInvariants.RunsKeepExternalIdsUnique | crates/timekeep-api/src/integration.rs:210-221 | Over every run whose lookups succeed external ids stay unique, whatever writes fail |
| WebhookInvariants.RunsKeepPinsUnique | crates/timekeep-storage-sqlite/src/migrations.rs:189-201 | A store that refuses taken PINs keeps them unique over every run, whatever fails |
| WebhookInvariants.CreateStepKeepsUniqueIff | crates/timekeep-api/src/integration.rs:210-226 | A create gives an external id a second row if and only if its lookup fails, the id is known, and the store accepts the row |
| WebhookInvariants.FailedLookupDuplicates | crates/timekeep-api/src/integration.rs:210-226 | A failed lookup that lets a known employee in again, under another PIN |
| WebhookInvariants.DeliveriesBalance | crates/timekeep-api/src/integration.rs:200-298 | Store growth is EmployeeCreated; the change in active employees is created minus deactivated where updates store the flag; deactivations and removals pair up; failures allowed anywhere |
| WebhookInvariants.EventsFollowCommits | crates/timekeep-api/src/integration.rs:221-289 | Each event of a create delivery is backed by a row at the moment it is published, in every store and whatever fails; so is each event of a write delivery in a store of whole rows |
| WebhookInvariants.ShippedEventsFollowCommitsIff | crates/timekeep-api/src/integration.rs:279-289 | In the shipped stores an event of one payload's write step is backed if and only if the payload retires no known employee and changes no PIN |
| WebhookInvariants.ShippedRetirementIsOnlyAnnounced | crates/timekeep-api/src/integration.rs:265-268 | A deactivation of an active employee announced to a shipped store with no row behind it |
| WebhookCommits.ShippedWritesAreBacked | crates/timekeep-api/src/integration.rs:248-291 | A whole write delivery to a shipped store that retires no known employee and changes no PIN announces only what the table shows, whatever calls fail |
| WebhookCommits.ShippedWritesAreBackedIff | crates/timekeep-api/src/integration.rs:248-291 | When no call fails, that condition on the table before the delivery is exact, whatever PINs the batch asks for |
| WebhookConvergence.BatchIsPointwise | crates/timekeep-api/src/integration.rs:248-291 | A batch of distinct ids changes each row by its own payload alone, adds newcomers in batch order, and announces each payload's own events |
| WebhookRedelivery.OrderDoesNotMatter | crates/timekeep-api/src/integration.rs:248-291 | Any permutation of a write batch ends in the same roster and the same multiset of events |
| WebhookRedelivery.TwoNewcomersCommuteIff | crates/timekeep-api/src/integration.rs:373-391 | Two newcomers may come in either order if and only if their PINs differ |
| WebhookRedelivery.FixedPointIff | crates/timekeep-api/src/integration.rs:265-274 | A batch changes and announces nothing if and only if every payload has nothing to change |
| WebhookRedelivery.OneDeliverySettlesIff | crates/timekeep-api/src/integration.rs:264-268 | One delivery reaches the fixed point if and only if no payload deactivates with other changes or creates an inactive employee |
| WebhookRedelivery.RenameWaitsForSecondDelivery | crates/timekeep-api/src/integration.rs:264-268 | A payload that deactivates and renames announces the new name only when delivered again |
| WebhookRedelivery.TwoDeliveriesSettle | crates/timekeep-api/src/integration.rs:248-291 | After two deliveries every later one changes no row and publishes nothing |
| WebhookSettling.StepPays | crates/timekeep-api/src/integration.rs:250-291 | A payload the store takes is announced and owes fewer steps afterwards; one it does not take changes no row and announces nothing |
| WebhookSettling.SilenceRepeats | crates/timekeep-api/src/integration.rs:248-291 | A batch that changed nothing changes nothing in any later delivery to the same table |
| WebhookSettling.DeliveriesSettle | crates/timekeep-api/src/integration.rs:248-291 | With any clash of PINs every delivery after as many as the batch owes steps, at most two for each payload, changes no row and publishes nothing |
| WebhookSettling.ChainTakesAllDeliveries | crates/timekeep-storage-sqlite/src/migrations.rs:189-201 | For every n there are n employees and a batch for them such that each of the first n deliveries changes something |
| WebhookRedelivery.ShippedRedeliverySettlesIff | crates/timekeep-storage-sqlite/src/employees.rs:224-246 | With the shipped stores redelivery settles if and only if no payload asks for a deactivation or another PIN |
| WebhookRedelivery.DeactivationRepeats | crates/timekeep-storage-postgres/src/employees.rs:212-234 | In a shipped store one deactivation is announced again with each of any number of deliveries, and the roster never changes |
| WebhookRaces.SoloTaskIsCreateStep | crates/timekeep-api/src/integration.rs:202-234 | A task scheduled alone does what the handler's loop body does |
| WebhookRaces.RacesAreSafe | crates/timekeep-api/src/integration.rs:202-234 | Under every interleaving of any number of create deliveries with one PIN per id, no external id gets two rows and each new row yields exactly one EmployeeCreated |
| WebhookRaces.RacesServeAll | crates/timekeep-api/src/integration.rs:202-234 | When no insert fails every payload ends up stored, without a PIN, or with its PIN taken |
| WebhookRaces.TwoDeliveriesAreSafeIff | crates/timekeep-api/src/integration.rs:212-221 | Two deliveries of one new employee are safe under every schedule if and only if they carry the same PIN |
| BarrelParser.ParseBarrelExports | scripts/generate-ui-barrel.ts:95-130 | The loop collects what each line exports, in order, telling values from types |
| BarrelParser.PaddedNameIsExtracted | scripts/generate-ui-barrel.ts:66-85 | A clean name is extracted as itself, as a value, with any white space around it |
| BarrelParser.AliasIsExported | scripts/generate-ui-barrel.ts:77-81 | `a as b` exports `b`, with any white space |
| BarrelParser.InlineTypeIsExported | scripts/generate-ui-barrel.ts:71-75 | `type a` exports `a` as a type |
| BarrelClauses.SpellingIsExtracted | scripts/generate-ui-barrel.ts:66-85 | Any clause of a clean name, with white space, `type ` and `as` or without, exports its alias or else its name, as a type if and only if it is marked |
| BarrelClauses.ValueLineIsRead | scripts/generate-ui-barrel.ts:117-126 | A line of any such clauses, `export { … } from`, exports the unmarked ones as values and the marked ones as types, each in order |
| BarrelClauses.TypeLineIsRead | scripts/generate-ui-barrel.ts:108-114 | After `export type` all of them are types |
| BarrelPrinter.BarrelWriter.EmitSection | scripts/generate-ui-barrel.ts:251-256 | A heading, after a blank line if needed, unless the section is already open |
| BarrelPrinter.BarrelWriter.EmitSections | scripts/generate-ui-barrel.ts:288-296 | Section by section, the listed components that exist, each marked as emitted |
| BarrelPrinter.GenerateBarrel | scripts/generate-ui-barrel.ts:228-314 | The text is the specified barrel, and the warning about missing components never fires |
| BarrelLayout.BarrelIsLaidOut | scripts/generate-ui-barrel.ts:228-314 | When no two sections share a name the barrel is, line for line, the header, the core heading and lines, each section that has components after a blank line and its heading, the special case, and a blank line |
| BarrelTheorems.BarrelRoundTrips | scripts/generate-ui-barrel.ts:95-314 | Parsing a generated barrel gives the components' values and types in emission order, plus the three form types when the special case fires; header and headings give nothing |
| BarrelTheorems.BarrelStates | scripts/generate-ui-barrel.ts:258-307 | The statements read back from the barrel are, in emission order, each component's values and then its types, one statement for each list that is not empty, from "./" and its directory; the form types from "@/lib/form-field-meta" come last |
| BarrelTheorems.FormTypesAreAddedIff | scripts/generate-ui-barrel.ts:301-307 | That last statement is there if and only if the directory `form` exports the type FormSchemaDefinition |
| BarrelTheorems.WritingIsOrdered | scripts/generate-ui-barrel.ts:278-296 | Components no section lists come first, by name, then the listed ones in the sections' order, each the first found of its name |
| BarrelTheorems.SortIsStable | scripts/generate-ui-barrel.ts:232 | Components of one name keep the order they were found in |
| BarrelTheorems.ListingOrderIsIrrelevant | scripts/generate-ui-barrel.ts:232 | The barrel is the same for every listing order of distinct directories |
| BarrelTheorems.EmittedOnceIff | scripts/generate-ui-barrel.ts:278-296 | Every component's exports are written exactly once if and only if no two share a directory name that a section lists |
| BarrelTheorems.SharedDirectoryIsLost | scripts/generate-ui-barrel.ts:184-216 | A directory and a standalone file of one name, which the script's sections list, whose exports are not each written once, however they are sorted |
| BarrelTheorems.SectionOrderIsDistinct | scripts/generate-ui-barrel.ts:236-242 | The script's section lists are disjoint and repeat no name |
| BarrelTheorems.BarrelLosesNothing | scripts/generate-ui-barrel.ts:278-296 | With distinct directories the components written are a permutation of the components given |
| PoCatalog.FindContinuation | scripts/fill_translations.py:1042-1052 | True exactly when a line of quoted text comes somewhere after a line that starts with an empty msgstr |
| PoCatalog.GetEmptyActiveEntries | scripts/fill_translations.py:1007-1059 | The loop lists, in order, the msgids of the blocks that pass every guard |
| PoWording.EntriesAreBlocks | scripts/fill_translations.py:1055 | Each entry is a block of the file with the msgid that block is listed under, and no listed block is missing |
| PoCatalog.ApplyTranslations | scripts/fill_translations.py:1062-1100 | The file afterwards and the reported count are those of the fill function; when nothing was translated the file is as before |
| PoCatalog.LooseIsFilled | scripts/fill_translations.py:1085-1092 | The fallback replaces the first msgid line and empty msgstr with white space and a newline between them, and nothing else |
| PoWording.LooseEntryIsFilled | scripts/fill_translations.py:1085-1092 | There the fallback writes the msgid line, a newline and the escaped translation |
| PoEscape.EscapedIsOnePass | scripts/fill_translations.py:1074 | The two replacements equal one pass that escapes each character |
| PoEscape.EscapeRoundTrips | scripts/fill_translations.py:1074 | PO unescaping gives back every string |
| PoEscape.EscapedIsQuotable | scripts/fill_translations.py:1074 | The result has no bare quote, has newlines only if the input has, and is empty only for the empty string |
| PoEntries.ListedIff | scripts/fill_translations.py:1017-1055 | An entry with msgid and msgstr on one line is listed if and only if its msgstr is empty, under its msgid up to the first quote, which is its own msgid if and only if that has no quote |
| PoEntries.ContinuedIsPassed | scripts/fill_translations.py:1042-1055 | An entry with a one-line msgid whose msgstr goes on in further lines is passed over |
| PoEntries.MultiLineIsWellFormed | scripts/fill_translations.py:1022-1024 | The header and entries with a continued msgid are passed over and can never be hit by a replacement |
| PoEntries.ObsoleteIsWellFormed | scripts/fill_translations.py:1026-1029 | Obsolete entries are passed over and can never be hit by a replacement |
| PoLayout.BlocksOfFile | scripts/fill_translations.py:1012 | Splitting a file at its runs of empty lines gives back its blocks, however many lines are empty between them and at the end |
| PoTheorems.ListsEmptyEntries | scripts/fill_translations.py:1016-1057 | The scanner lists exactly the active empty entries of a catalogue, in order, each up to the first quote of its msgid |
| PoTheorems.HitInBlock | scripts/fill_translations.py:1076-1082 | In an entry, one-line or continued, a replacement can hit only at its own msgid and only when the msgstr line is empty |
| PoTheorems.ReplaceFillsOne | scripts/fill_translations.py:1076-1082 | Despite replacing globally, the replacement for an empty entry with a quote-free msgid changes that entry's msgstr and no other character |
| PoTheorems.QuotedIsNotFilled | scripts/fill_translations.py:1066-1092 | For an empty entry with a quote in its msgid neither replacement finds anything |
| PoTheorems.QuotedEntryStaysEmpty | scripts/fill_translations.py:1031-1036 | One such entry, listed up to its escaped quote and left empty whatever the dictionary holds |
| PoTheorems.CleanEndsPassOver | scripts/fill_translations.py:1076-1092 | Verbatim text in which no line ends in an escaped quote is no target for an entry with a quoted msgid |
| PoTheorems.FillsExactlyKnownEntries | scripts/fill_translations.py:1062-1100 | With any dictionary a run fills exactly the active, empty entries with a quote-free msgid it knows and counts them; every other block, continued or quoted ones included, is unchanged character for character |
| PoWording.LoneEntryIsFilled | scripts/fill_translations.py:1062-1100 | Spelled out for a file of one plain entry: `msgid "…"`, newline, `msgstr ""` becomes the same with the translation between the quotes, and 1 is reported |
| PoWording.CommentedOutIsNotListed | scripts/fill_translations.py:1026-1029 | Spelled out: an entry commented out with `#~` is not listed |
| PoTheorems.SecondRunChangesNothing | scripts/fill_translations.py:1062-1100 | With non-empty, newline-free translations a second run fills nothing and leaves the file as it is |
| DeviceState.DeviceConnectionState.SetAdmsConnected | crates/timekeep-api/src/app_state.rs:32-42 | Creates or updates the device's entry and no other |
| DeviceState.DeviceConnectionState.SetDisconnected | crates/timekeep-api/src/app_state.rs:44-51 | Clears both flags of a known device and makes no entry for an unknown one |
| DeviceState.DeviceConnectionState.SetSdkPolled | crates/timekeep-api/src/app_state.rs:53-64 | Creates or updates the device's entry, recording the poll |
| DeviceState.TableMirrorsHistories | crates/timekeep-api/src/app_state.rs:32-64 | After any run a device's entry is given by its own history: a flag is up if and only if its connection came after the last disconnect, `last_poll` is the last poll, disconnects before contact are ignored |
| DeviceState.InterleavingIsIrrelevant | crates/timekeep-api/src/app_state.rs:32-64 | Runs with the same history per device end in the same table |
| DeviceState.DetailTellsHistory | crates/timekeep-api/src/dto.rs:289-303 | Status and mode of the detail view and status of the list view, each for every history: the mode is "both", "adms" or "sdk" as push, poll or both came after the last disconnect; an active poll has a last poll |
| DeviceState.ViewsAgreeIff | crates/timekeep-api/src/routes/devices.rs:49-62 | List and detail view give the same status if and only if the device was ever in contact |
| AuditActions.DeriveAction | crates/timekeep-api/src/audit.rs:66-84 | The nested search with early return computes the action of the request |
| AuditActions.TrimsRepetitions | crates/timekeep-api/src/audit.rs:67 | All leading repetitions of the prefix go, and what follows them stays |
| AuditActions.SearchIsTheMatchingRow | crates/timekeep-api/src/audit.rs:69-77 | In a prefix-free table the search finds what the one matching row says |
| AuditActions.ListedActionIsRecorded | crates/timekeep-api/src/audit.rs:69-77 | In a prefix-free table a request is recorded under the action its row lists with its verb, in any capitals |
| AuditActions.ShippedEntryIsRecorded | crates/timekeep-api/src/audit.rs:31-77 | So is every entry of the shipped table, at any path below `/api/` and its prefix |
| AuditActions.EqIgnoreCaseIff | crates/timekeep-api/src/audit.rs:72 | Two verbs match if and only if they have the same letters in any capitals |
| AuditActions.TableOrderIsIrrelevant | crates/timekeep-api/src/audit.rs:29-31 | Any permutation of a prefix-free table gives the same action for every request |
| AuditActions.ShippedTableMayBeReordered | crates/timekeep-api/src/audit.rs:31-60 | So does any permutation of the shipped table |
| AuditActions.AuditedIff | crates/timekeep-api/src/audit.rs:69-83 | With any table a request has an action if and only if its verb is a write in capitals or a row for its path lists the verb in any capitals |
| AuditActions.UnplacedRequest | crates/timekeep-api/src/audit.rs:79-83 | On a path the table does not place, POST, PUT, PATCH and DELETE in capitals are recorded as api.post, api.put, api.patch and api.delete, and any other verb not at all |
| AuditActions.WritesAreAudited | crates/timekeep-api/src/audit.rs:79-83 | Every POST, PUT, PATCH and DELETE has an action; GET has one if and only if the path is under the punch exports |
| AuditActions.OtherVerbsAreNotAudited | crates/timekeep-api/src/audit.rs:72-83 | Any verb the table does not list, in any capitals, has no action, except PATCH in capitals |
| Navigation.FlattenNavigation | shared/navigation.ts:147-162 | The loop with its recursion computes the flattened list |
| Navigation.FlatteningIsPreorderWalk | shared/navigation.ts:147-162 | The list is exactly the nodes with a non-empty path, in preorder, each with the depth and parent key of its place in the tree |
| Navigation.UniqueKeysStayUnique | shared/navigation.ts:147-162 | A tree without repeated keys gives a list without repeated keys |
| Clock.AcceptsIff | crates/timekeep-api/src/management.rs:678-689 | A text reads as a time if and only if it is two numerals around its only colon with values within the day |
| Clock.RejectsWith | crates/timekeep-api/src/management.rs:678-689 | Which of the four errors a text gives: no only colon, no hour numeral, no minute numeral, or no time of the day, whichever comes first |
| Clock.PrintedTimeReadsBack | crates/timekeep-api/src/dto.rs:1303-1304 | A printed time is two digits, a colon and two digits, and reads back as itself |
| Clock.PrintingIsCanonical | crates/timekeep-api/src/management.rs:678-689 | Print after parse is a canonical form: it reads the same, and two texts share it if and only if they read as the same time |
| Clock.OtherSpellingsAreRead | crates/timekeep-api/src/management.rs:683-686 | Leading zeros, a plus, and a minus at midnight are read too |
| Settings.SettingsService.UpdateSettings | crates/timekeep-api/src/management.rs:605-673 | An update is accepted if and only if no check and no storage call fails; otherwise nothing is stored or published, and the first failing check is the error |
| Settings.FirstFailureIsReported | crates/timekeep-api/src/management.rs:615-630 | A request is refused for its poll interval if and only if that is under five, else for the first work time that cannot be read |
| Settings.AnnouncedOnce | crates/timekeep-api/src/management.rs:653-670 | An accepted request that supplies something publishes one event naming exactly what it supplies, in the handler's order; any other publishes none |
| Settings.LastAcceptedWins | crates/timekeep-api/src/management.rs:615-651 | After any run every setting holds what the last accepted request gave it, and else what it held before |
| Settings.ChangesAreAnnounced | crates/timekeep-api/src/management.rs:609-670 | Over any run a setting that ends with another value was named by one of the run's events |
| Settings.PollIntervalKeepsItsFloor | crates/timekeep-api/src/management.rs:615-620 | No run brings the poll interval under five seconds |
| Settings.SendingBackChangesNothingIff | crates/timekeep-api/src/response.rs:296-298 | After any run, sending the settings back as shown is accepted; it changes no setting if and only if the late threshold is whole minutes, and otherwise that threshold alone |
| Settings.LateThresholdIsShownIff | crates/timekeep-api/src/management.rs:631-633 | After any run the late threshold is shown as the last accepted request gave it if and only if its seconds fit 64 bits |
| Settings.LateThresholdIsWholeIff | crates/timekeep-api/src/management.rs:631-633 | After any run it is whole minutes if and only if the minutes last accepted wrap around a multiple of fifteen times, or, when none were, it was before |
| Settings.OverflowBreaksThreshold | crates/timekeep-api/src/management.rs:631-633 | In any state a 64-bit number of minutes is accepted and stored as a negative threshold that is not whole minutes, and another as no time at all |
| Tokens.CsvRoundTripsIff | crates/timekeep-api/src/helpers.rs:61-65 | A list survives joining and splitting if and only if its items are trimmed, not empty and free of commas |
| Tokens.SplitsSlots | crates/timekeep-api/src/helpers.rs:61-65 | Items with any white space around them, between commas, come out trimmed and in order, without the empty ones |
| Tokens.EveryTextIsSlots | crates/timekeep-api/src/helpers.rs:61-65 | Every text is such a list |
| Tokens.SplittingIsStable | crates/timekeep-api/src/helpers.rs:61-65 | Splitting what was split and joined again changes nothing; only an absent input gives no list |
| Tokens.EveryTextIsWoven | shared/permissions.ts:147-152 | Every text is tokens with white space before, between and after |
| Tokens.ParsesKnownTokens | shared/permissions.ts:147-152 | From any mix of tokens and white space exactly the known permissions come out, in order |

## Left out

- Time stamps are a logical clock and generated ids are consecutive naturals; `joined_at`,
  `created_at` and `department_id`, which the webhook never sets, are not modelled.
- The employee table is a sequence in insertion order and a lookup answers with the first match;
  SQL gives no order when an external id has several rows.
- An unlink's events are backed by no write: it announces a deactivation and leaves the row active.
- The handlers' counters are unbounded; a batch fits in the 1 MB body limit, far below their width.
- Log lines, HTTP responses and the 503 answer when no employee store is configured.
- The bodies of the handlers' loops are methods of their own (`CreateOne`, `WriteOne`, `UnlinkOne`,
  `Examine`, `ApplyEntry`, `ParseLine`), and so are the two parts of `generateBarrel`.
- RacesAreSafe: lookups succeed, inserts may fail; a failed lookup is covered by CreateStepKeepsUniqueIff.
- OrderDoesNotMatter: the storage calls succeed; with failures the outcome depends on which call fails.
  In a store that enforces PINs the batch's PINs are distinct and each is free or the employee's own,
  and external ids are unique in the table; TwoNewcomersCommuteIff shows what happens otherwise.
- TwoDeliveriesSettle: under those conditions too; DeliveriesSettle does without them.
- OneDeliverySettlesIff: under those conditions too, and so are FixedPointIff and BatchIsPointwise.
- ShippedRedeliverySettlesIff: under those conditions too; a newcomer refused for its PIN would wait.
- ShippedWritesAreBackedIff: a batch names no employee twice, as in all results about write batches.
- DeliveriesSettle: the storage calls succeed and the batch names no employee twice, or two payloads
  could undo each other for ever.
- Regular expressions are written out as the matches they make; the sort order of directory names is
  any total order, which the listing-order result assumes to tell distinct names apart.
- BarrelRoundTrips: names have no white space, comma or closing brace, and directory names no newline.
- BarrelStates: of such components, and no directory name holds a quote.
- ValueLineIsRead: names as in BarrelRoundTrips; a clause `type as b` is taken for a marked one.
- `parseSourceExports`, directory scanning, and the console warnings other than the missing-component one.
- The bookkeeping of `pos` in the scanner, which nothing reads; the dictionaries, which are any map.
- FillsExactlyKnownEntries: the file starts with a block; msgids are PO strings on one line, distinct
  among the entries; comments of an active entry do not spell out one of its fields; no verbatim block
  has the lines of an empty entry (headers, continued msgids and obsolete entries never have, by
  MultiLineIsWellFormed and ObsoleteIsWellFormed).
- SecondRunChangesNothing: of a file that satisfies the same, and for translations without newlines; one
  with an empty line in it splits its entry into two blocks.
- Plural forms and message contexts, which the catalogues do not use, are verbatim blocks if passed over.
- Times carry no seconds, which `parse_time` never sets; the fractional hours of a work policy, which are
  floating-point products cut to seconds.
- Settings and device fields that are copied through (labels, capacities, firmware) and percentages.
- Audit: client address, actor, the excluded paths and the record that is written.
- Attendance calculation, deduplication, rate limiting, device protocols, tokens and onboarding.
