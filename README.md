# Importer queue and automation enrolment sync

This project models two background jobs of a Magento 2 email-marketing extension.

**The importer queue (`Model/Importer.php`).** Data waiting to go to the remote email platform is written as queue entries. Each entry has an import type, a mode, a website, a payload or an attached file, and a status: NotImported, Importing, Imported or Failed. Every cron cycle `processQueue` runs three steps:
- It reconciles up to five entries that are still Importing. For each, it asks the remote platform for the import's status, then marks the entry Imported or Failed or leaves it alone. A finished contact import triggers follow-ups: it deletes consent records, archives the CSV file and unsubscribes the contacts listed in the fault report.
- It runs the **bulk tier** of three rules, sharing a budget of five entries.
- It runs the **single tier** of seven rules, sharing a budget of one hundred entries. Every non-empty batch goes to the rule's worker.

`registerQueue` builds and saves a new entry.

**The automation enrolment sync (`Model/Sync/Automation.php`).** Customer, subscriber, order, review and wishlist events create pending enrolment rows. For each pending automation type, `sync` does the following:
- It resolves the contact of up to `limit` pending enrolments. A resolved enrolment gets its datafields updated. An unresolved one is saved as Suppressed.
- It enrols the resolved contacts into the program, if the program is Active.
- It writes the outcome back to exactly those enrolments: the status, the message and the time.

**How the model works.**
- Every collaborator is a function in an environment value: the API client, the helper, the store queries, the CSV reader and the order loader.
- Every call the code makes to a collaborator is recorded, in order, in a `trace`. Each method is therefore specified by the calls it makes and the state it leaves.
- The two source classes are Dafny classes: `ImporterModel.Importer` and `AutomationModel.Automation`. Their fields are the PHP instance fields that the methods overwrite, such as `totalItems`, `bulkPriority`, `programStatus` and `typeId`.
- Their loops are `while` loops, proved against specification functions in the modules `Dispatch`, `Reconcile`, `Faults` and `Enrolments`. The properties are proved as lemmas about those functions.

**Modules, one per file.**

| Module | Contents |
|---|---|
| `Collections` | option, filter, take |
| `Php` | truthiness, `explode`/`implode`, ordered integer-keyed arrays |
| `Queue` | the queue entry, the store queries, the effects |
| `Priority` | the priority plan of `_setPriority` |
| `Dispatch` | one dispatch tier of `processQueue` |
| `Faults` | byte-order mark, fault report, consent emails |
| `Reconcile` | `_checkImportStatus` and `processResponse` |
| `ImporterModel` | the importer class |
| `Enrolments` | the sync as functions |
| `AutomationModel` | the automation class |

**Where the code was followed over its evident intent.** In each case below, the model does what the code does:
- **The datafields type is never set.** `sync` passes `$this->automationType` to `updateDatafieldsByType` (Model/Sync/Automation.php:155-157). Nothing ever assigns that field, so the `switch` always falls to its default branch, and every resolved enrolment updates the *default* datafields.
  - The model keeps the field. It starts unset, and `Enrolments.UnsetTypeUsesDefaultDatafields` proves the consequence.
  - The order routine is modelled and proved on its own, but `sync` never reaches it.
- **Six order datafields.** The order datafields routine has six candidates. The sixth is the customer id, and it is sent only for an order with a customer.
- **Enrolment statuses are free text.** The status is whatever the program lookup returns, or "Failed" or "Deactivated". It is not a closed set.
- **The reconcile count seeds the bulk tier.** `processQueue` resets `totalItems` to zero *before* the reconcile pass (Model/Importer.php:276). Each import still running remotely adds one to it (Model/Importer.php:534). So the bulk tier starts from that count, not from zero.
- **The budget counts entries.** The running total grows by the size of each batch, that is, by entries, not by batches.

## Model

| member | source | states |
|---|---|---|
| Php.Explode | Model/Importer.php:580-586 | `explode` always yields at least one piece, and no piece contains the separator |
| Php.ImplodeExplode | Model/Importer.php:580-586 | joining the pieces of `explode` with the separator gives back the original text |
| Php.ExplodeImplode | Model/Importer.php:580-586 | splitting separator-free pieces joined by the separator gives back the pieces |
| Php.Put | Model/Sync/Automation.php:158 | `$contacts[$id] = $contactId` appends a new key at the end; for an existing key it replaces that key's pair in place with the new value and leaves every other pair as it was; no other key appears or disappears |
| Queue.ImportingItems | Model/Importer.php:558-562 | the Importing entries, at most `limit` of them, all taken from the store; when fewer than `limit` come back, every Importing entry is among them |
| Queue.QueueByTypeAndMode | Model/Importer.php:624-628 | the fetched batch holds only NotImported entries of the listed types and the mode, at most `limit` of them; when it is short of the limit, it holds all such entries |
| Priority.BulkPriority | Model/Importer.php:338-366 | the bulk tier has three Bulk-mode rules, each limited by the bulk sync limit |
| Priority.SinglePriority | Model/Importer.php:371-449 | the single tier has seven rules, none in Bulk mode, each limited to `SYNC_SINGLE_LIMIT_NUMBER` = 100 |
| Priority.Plan | Model/Importer.php:332-451 | both tiers, bulk first, ten rules in all |
| Priority.Route | Model/Importer.php:338-449 | the routing table, written independently of the plan: the plan position serving each (type, mode) pair, or none |
| Priority.RouteWorker | Model/Importer.php:338-449 | the worker table, written independently of the plan: a pair has a worker exactly when the routing table routes it |
| Priority.PlanRouting | Model/Importer.php:332-451 | a plan rule serves a (type, mode) pair exactly when an independently written routing table names that rule's position, in both directions; the rule's worker is the one an independently written worker table names for the pair |
| Priority.RulesDisjoint | Model/Importer.php:332-451 | no two rules of the plan select the same entry |
| Priority.FetchedOnlyByItsRule | Model/Importer.php:288-322 | every entry a rule's fetch returns is routed to that rule, and goes to the worker the worker table names for it |
| Priority.RoutedIsSelectable | Model/Importer.php:332-451 | a NotImported entry whose pair is routed can be selected by the rule it is routed to |
| Dispatch.TierWithinBudget | Model/Importer.php:288-322 | a tier that starts at or below its limit ends between its start and the limit |
| Dispatch.TierSkipsWhenFull | Model/Importer.php:289-290 | once the running total has reached the limit after any number of rules, the rest of the tier fetches and dispatches nothing |
| Dispatch.TierAccounting | Model/Importer.php:296-301 | the running total grows by exactly the sizes of the dispatched batches; every dispatched batch is non-empty; there is at most one dispatch per rule |
| Dispatch.TierCallsFollowRules | Model/Importer.php:288-322 | every dispatched batch goes to the worker of a rule of the tier, and holds only store entries that the rule selects |
| Dispatch.TierDispatchesAllSelected | Model/Importer.php:288-322 | a tier that ends under its limit hands every entry that one of its rules selects to a worker, in some dispatched batch |
| Dispatch.LastRuleDispatchesSelected | Model/Importer.php:289-300 | in a tier that ends under its limit, the last rule's fetch was short of its budget, so each entry it selects is in a dispatched batch |
| Dispatch.Step | Model/Importer.php:289-300 | one pass of the loop body: a rule under its limit fetches up to the remaining budget and dispatches a non-empty batch; the running total never decreases |
| Dispatch.RunTier | Model/Importer.php:288-302 | the tier loop over the rules in order; the running total ends at or above its start |
| Faults.RemoveUtf8Bom | Model/Importer.php:607-613 | the text is the result preceded by the mark, when it starts with one; the text is unchanged exactly when it does not start with one |
| Faults.RemoveUtf8BomOnce | Model/Importer.php:607-613 | one leading mark is stripped, and a second mark stays |
| Faults.CollectFaultEmails | Model/Importer.php:585-592 | the loop collects exactly the fault-email list of the rows |
| Faults.FaultEmailsAppend | Model/Importer.php:585-592 | the emails of concatenated rows are the concatenated emails, so report order is kept |
| Faults.FaultEmailsExactly | Model/Importer.php:585-592 | an email is collected exactly when some row carries it after a listed reason, and there is one email per such row |
| Faults.FaultEffects | Model/Importer.php:574-598 | an absent or falsy report, or one with only a header, makes no call; any other report makes exactly one unsubscribe, of the emails collected from the rows after the header |
| Faults.ReportRows | Model/Importer.php:579-582 | the report without its byte-order mark, split on the line feed, header line dropped |
| Faults.FaultEmails | Model/Importer.php:585-592 | the email of each row whose reason is listed, in report order |
| Faults.FaultReportExample | Model/Importer.php:579-596 | in a header plus one row with a listed reason and one row without, only the first row's email is collected |
| Faults.ConsentEmails | Model/Importer.php:636-639 | each value whose key is not "Email" is among the emails, and each email is such a value |
| Reconcile.Transition | Model/Importer.php:501-539 | an answer with a message fails the entry with that message; "Finished" imports it, at `now`, with an empty message; a listed failure status fails it with a message naming the status; any other answer leaves it unchanged; no field other than status, message and finish time changes |
| Reconcile.TransitionIsForward | Model/Importer.php:501-539 | an Importing entry only moves to Imported or Failed, or stays |
| Reconcile.FollowUp | Model/Importer.php:507-527 | the follow-up calls of an answer never save an entry and never dispatch a batch |
| Reconcile.FollowUpShape | Model/Importer.php:507-527 | a consent deletion comes first and the archive call second, and the archive happens exactly for a Finished contact-family import with a truthy file; an unsubscribe needs a contact-family import with a truthy import id; any other answer makes no follow-up call |
| Reconcile.ImportedFollowUp | Model/Importer.php:518-527 | the follow-ups of a Finished contact-family import never save an entry and never dispatch a batch |
| Reconcile.ResponseEffects | Model/Importer.php:501-539 | everything `processResponse` calls: the follow-ups, then one save of the moved entry |
| Reconcile.StatusCallFor | Model/Importer.php:471-480 | a contact-family entry asks for the contact import's status, any other for the transactional-data import's |
| Reconcile.Visit | Model/Importer.php:461-489 | one entry: no call without a client; a throwing status call saves it Failed with the error; an answer is handed to `processResponse` |
| Reconcile.VisitAll | Model/Importer.php:458-492 | the visits of the entries in order, with their still-running count |
| Reconcile.ResponseEffectsOrder | Model/Importer.php:501-539 | the entry is saved once, last; the CSV is archived only right after its consent emails are deleted, and exactly for a Finished contact-family import with a file; an unsubscribe needs an import id; any other answer only saves |
| Reconcile.VisitSavesOnce | Model/Importer.php:461-489 | an entry whose website has a client is saved exactly once: Failed with the call's error when the status call throws, otherwise last, as the answer moves it; an entry without one is not saved |
| Reconcile.VisitMovesForward | Model/Importer.php:461-489 | every save a visit of an Importing entry makes is of that entry, still Importing or moved to Imported or Failed |
| Reconcile.VisitAllMovesForward | Model/Importer.php:458-492 | every entry a reconcile pass saves is one of the pass's Importing entries, still Importing or moved to Imported or Failed |
| Reconcile.VisitAllSavesEachOnce | Model/Importer.php:458-492 | a reconcile pass saves exactly the entries with a client, once each, in order; at most one still-running count per entry |
| ImporterModel.Importer.RegisterQueue | Model/Importer.php:229-266 | answers true exactly when the payload encodes, the encoding or the file is truthy, and the save succeeds; then it saves the filled-in entry once; otherwise it saves nothing; a throwing serializer leaves the entry untouched |
| ImporterModel.Importer.ProcessQueue | Model/Importer.php:273-323 | the calls are the reconcile pass over up to five Importing entries, then the bulk tier from the still-running count, then the single tier from zero; the bulk total stays within 5 and the single total within 100 |
| ImporterModel.CycleWithinBudget | Model/Importer.php:276-322 | the still-running count of the reconcile pass is at most five, the bulk tier started from it ends within five, and the single tier started from zero ends within one hundred |
| ImporterModel.Importer.RunCycle | Model/Importer.php:284-322 | with the running total at zero, the calls are the reconcile pass, then the bulk tier from the still-running count, then the single tier from zero, which leaves the running total |
| ImporterModel.Importer.SetPriority | Model/Importer.php:332-451 | installs the bulk tier at the current bulk limit and the single tier |
| ImporterModel.Importer.DispatchTier | Model/Importer.php:288-302 | the loop makes exactly the tier's dispatch calls and leaves the tier's running total |
| ImporterModel.Importer.CheckImportStatus | Model/Importer.php:458-492 | the loop makes exactly the reconcile pass's calls, and adds its still-running count to `totalItems` |
| ImporterModel.Importer.ProcessResponse | Model/Importer.php:501-539 | makes the answer's follow-ups, then saves the moved entry; counts one more exactly when the import is still running |
| ImporterModel.Importer.FinishContactImport | Model/Importer.php:518-527 | a truthy file has its consent emails deleted and is then archived; then a truthy import id has its fault report processed |
| ImporterModel.Importer.SaveItem | Model/Importer.php:546-549 | one save of the given entry |
| ImporterModel.Importer.ProcessContactImportReportFaults | Model/Importer.php:574-598 | makes exactly the report's fault calls |
| ImporterModel.Importer.CleanProcessedConsent | Model/Importer.php:633-650 | one consent deletion, of the file index's emails |
| Enrolments.PendingTypes | Model/Sync/Automation.php:120-129 | each type of a pending row appears, only such types appear, and each appears once |
| Enrolments.Batch | Model/Sync/Automation.php:134-141 | only pending rows of the type, at most `limit` of them; when fewer than `limit` come back, all such rows are in the batch |
| Enrolments.DatafieldsRoutine | Model/Sync/Automation.php:222-247 | the order routine runs exactly for the order, guest-order and review types |
| Enrolments.DefaultRoutineTypes | Model/Sync/Automation.php:222-247 | the customer, subscriber and wishlist types, and an unset type, take the default routine |
| Enrolments.SelectExactly | Model/Sync/Automation.php:269-323 | every datafield sent comes from a configured candidate, and every configured candidate sends its datafield |
| Enrolments.BuildNewOrderDatafields | Model/Sync/Automation.php:263-323 | the appended list is the configured datafields in table order, at most six |
| Enrolments.CustomerDatafieldNeedsCustomer | Model/Sync/Automation.php:314-323 | with the key configured and an order customer, the customer-id pair is sent last; the list is empty exactly when no candidate is configured |
| Enrolments.DatafieldCalls | Model/Sync/Automation.php:222-258 | at most one datafield call is made; under the default routine it is exactly the helper's update for the email, website and store |
| Enrolments.ResolvePassContacts | Model/Sync/Automation.php:141-164 | with distinct enrolment ids, the map's keys are the ids of the resolved enrolments and its values their contact ids, in batch order |
| Enrolments.ResolvePassKeys | Model/Sync/Automation.php:141-164 | the map's keys are exactly the ids of the resolved enrolments, and the map is no longer than the batch |
| Enrolments.ResolveRowKeys | Model/Sync/Automation.php:142-163 | one row adds its enrolment id to the map's keys exactly when its contact resolves, and adds at most one pair |
| Enrolments.ResolvedIdsStep | Model/Sync/Automation.php:141-164 | a resolved id of a batch is one of its prefix or that of its resolved last row |
| Enrolments.ResolveRow | Model/Sync/Automation.php:142-163 | one row of the inner loop: the row fields are read, then a datafield update and a map entry, or a Suppressed save |
| Enrolments.ResolvePass | Model/Sync/Automation.php:141-164 | the inner loop over a batch from the given fields and an empty map |
| Enrolments.ResolvePassSuppresses | Model/Sync/Automation.php:159-163 | exactly the unresolved enrolments are saved as Suppressed, in batch order |
| Enrolments.PassTouchesOnlyPending | Model/Sync/Automation.php:141-164 | the inner loop over one type's batch saves as Suppressed only pending enrolments of the store whose contact did not resolve |
| Enrolments.ConcludeTouchesOnlyPending | Model/Sync/Automation.php:166-212 | the status write at the end of one type goes only to pending enrolments of the store whose contact resolved |
| Enrolments.ResolvePassFields | Model/Sync/Automation.php:141-164 | program status and message are untouched; the row fields end as the last row's; the only calls are datafield updates and Suppressed saves of unresolved rows of the batch; under the default routine there is one call per row |
| Enrolments.ConcludeCalls | Model/Sync/Automation.php:166-212 | the program is looked up exactly with contacts, a type and a program id; the contacts are enrolled exactly when the program is Active, at most once, with the map's contact ids; the type ends with one status write to the map's enrolment ids, whose failure is its error |
| Enrolments.ConcludeStatus | Model/Sync/Automation.php:166-195 | an enrolment answered with a message gives Failed and that message; without one, Active; with no enrolment, the not-active message gives Deactivated, and otherwise the looked-up or carried status stays; the row fields do not change |
| Enrolments.Conclude | Model/Sync/Automation.php:166-212 | the end of one type: lookup and enrolment when they apply, the Failed or Deactivated outcome, the status write and its error |
| Enrolments.TypeStep | Model/Sync/Automation.php:132-212 | one type of the outer loop, skipped once a write has thrown |
| Enrolments.RunTypes | Model/Sync/Automation.php:132-213 | the outer loop over the types in order |
| Enrolments.SyncRun | Model/Sync/Automation.php:117-214 | `sync`: the outer loop over the pending types |
| Enrolments.ErrorStopsSync | Model/Sync/Automation.php:208-212 | after a status write throws, no later type makes a call or changes a field |
| Enrolments.TypeTouchesOnlyPending | Model/Sync/Automation.php:134-212 | one type's calls write or suppress only pending enrolments of the store |
| Enrolments.SyncTouchesOnlyPending | Model/Sync/Automation.php:117-214 | the sync writes statuses only to pending enrolments whose contact resolved, and saves as Suppressed only pending ones whose contact did not |
| Enrolments.MessageCarriesOver | Model/Sync/Automation.php:174-191 | the final message is the starting one or the answer of one of the sync's enrolment calls |
| Enrolments.UnsetTypeUsesDefaultDatafields | Model/Sync/Automation.php:155-157 | with the datafields type unset, each enrolment makes exactly one call: a Suppressed save or a default datafield update |
| AutomationModel.Automation.constructor | Model/Sync/Automation.php:18-46 | the limit starts at 100, the program status at Active and the message unset |
| AutomationModel.Automation.Sync | Model/Sync/Automation.php:117-214 | fields, calls and thrown error are those of the run over the pending types |
| AutomationModel.Automation.ResolveContacts | Model/Sync/Automation.php:141-164 | the inner loop leaves the pass's fields, map and calls |
| AutomationModel.Automation.ResolveEnrolment | Model/Sync/Automation.php:142-163 | one row of the inner loop, as the pass's step |
| AutomationModel.Automation.ConcludeType | Model/Sync/Automation.php:166-212 | the end of one type, as its conclusion |
| AutomationModel.Automation.UpdateDatafieldsByType | Model/Sync/Automation.php:222-247 | the routine's datafield calls for the type |
| AutomationModel.Automation.UpdateDefaultDatafields | Model/Sync/Automation.php:254-258 | one helper datafield update, for the email, website and store |
| AutomationModel.Automation.UpdateNewOrderDatafields | Model/Sync/Automation.php:263-331 | one update of the order customer's datafields with the configured list, and no call when the list is empty |
| AutomationModel.Automation.CheckCampaignEnrolmentActive | Model/Sync/Automation.php:340-357 | answers Active exactly for a truthy program id whose lookup returns "Active"; no call for a falsy id; a returned status is copied into `programStatus` |
| AutomationModel.Automation.SendContactsToAutomation | Model/Sync/Automation.php:364-376 | posts the contacts to this program with no address books, and answers the post's message |

## Left out

- Store queries: the SQL, the ordering and the grouping are not modelled. The store is a snapshot sequence of rows, and a query is a filter followed by a take in snapshot order. The grouped type query keeps first-occurrence order.
- The queue's collection class is not part of this model. `getItemsWithImportingStatus` (Model/Importer.php:558-562) is modelled as selecting the Importing entries. `getQueueByTypeAndMode` (Model/Importer.php:624-628) is modelled as selecting the NotImported entries of one of the given types and of the given mode. The snapshot argument below and `Priority.RulesDisjoint` rest on that assumed NotImported filter.
- The sync's snapshot: each type's reads come from the same snapshot. Writes of one type touch only that type's rows, so later types cannot observe them.
- Workers: the worker classes' own `sync` is modelled as one recorded call per batch.
- Exceptions in dispatch: `processQueue` has no try around the two tier loops (Model/Importer.php:288-322). So an exception from `_getQueue`, from `objectManager->create` or from a worker's `sync` would abort the whole cycle, and the remaining rules of both tiers would not run. In the model, fetches and workers never throw. `Dispatch.TierDispatchesAllSelected` and the ensures of `ImporterModel.Importer.ProcessQueue` describe only a cycle in which no fetch and no worker throws.
- The importer's `objectManager` is not modelled.
- JSON: encoding is a serializer function that encodes or throws. The `jsonError` log message is not modelled.
- CSV and files: reading the CSV, `getFilePath` and the archive internals are not modelled. The file index is a function of the file name.
- Logging, `helper->debug`, `gmdate` and the locale date: the time is passed in as `now`.
- A failing save in `registerQueue` is a boolean parameter, `saveThrows`. The resource's own failure modes are not modelled. The fields set on the entry before the throw stay set, as in the code.
- Exceptions in the reconciler: thrown by `saveItem`, `archiveCSV`, `unsubscribe`, the fault-report call or `csv->getDataPairs` inside `processResponse`, they would propagate out of `processQueue`. `getDataPairs` is called outside the try of `cleanProcessedConsent` (Model/Importer.php:636, 641-649), so a missing CSV would abort the cycle. Only the status call's exception, which the code catches, is modelled.
- The consent deletion's exception, which the code catches and logs, has no effect on the model.
- In `sync`, exceptions from the Suppressed save, the contact-id lookup, the program lookup and the enrolment post are not modelled. Neither are those from the datafield updates: `_storeManager->getWebsite`, `_helper->updateDataFields`, the order load and `updateContactDatafieldsByEmail` (Model/Sync/Automation.php:156-157, 254-258, 263-331), which would propagate out of `sync` uncaught. Only the status write's exception is modelled, as `writeFails`.
- `processContactImportReportFaults`: when no row matches, the code passes an undefined variable (PHP null) to `unsubscribe`. The model passes an empty list.
- PHP null elsewhere is modelled as "", 0, an empty list or `None`, as the code's truthiness tests treat it.
- Line endings: `PHP_EOL` is the line-feed byte. A "\r" before it stays part of the row.
- Import types: Model/Importer.php defines no Quote type. Its type constants are Guest, Orders, Contact, Reviews, Wishlist and Subscriber, with the update and resubscribe constants aliasing Contact and Subscriber (Model/Importer.php:25-33); Catalog appears only as a literal in the plan. `Queue.ImportType` adds a Quote value for the `Proccessor::IMPORT_TYPE_QUOTE` entries that Model/Sync/Quote.php registers through a different class, `Proccessor` (Model/Sync/Quote.php:57-58, 149-150). `registerQueue` takes `$importType` as a free string (Model/Importer.php:229-235); the model closes it to these eight values, so an entry of any other type cannot be registered in the model. Its `$importMode` is a free string too, which the model closes to the seven `Queue.ImportMode` values. No rule of the plan fetches an entry of an unlisted type or of Quote: `Priority.Route` answers None for Quote, and no tier dispatches such an entry.
- Model/Sync/Quote.php and Model/Review.php are not part of this model. Neither are the importer's `beforeSave`, `_construct` and constructor wiring.
- Queue entries and enrolment rows are values, not active-record objects. Whether `setImportFile` mutates an object shared with the caller is not modelled.
- One snapshot of the queue serves the reconcile pass and both tiers, although entries are saved and workers run in between. This is sound for what the model states: reconcile moves only Importing entries, and never to NotImported, so it cannot change what a tier fetches; no two rules select the same entry (`Priority.RulesDisjoint`); and the workers are opaque, so whatever they write is not modelled.
- `$collection->getSize()` is modelled as the number of entries fetched, that is, the length of the batch. `Dispatch.TierAccounting`, `Dispatch.TierSkipsWhenFull` and `Dispatch.TierDispatchesAllSelected` hold for a store whose size answer is that length. A collection whose count ignored its page size would change those totals; only the bound on dispatched entries would still hold.
