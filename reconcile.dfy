/**
 * The importer's status reconciler (`_checkImportStatus` and
 * `processResponse`): how one answer of the remote import-status endpoint
 * moves an Importing entry, which follow-up calls it triggers, and what a
 * whole pass over the Importing entries writes.
 */
module Reconcile {
  import opened Collections
  import opened Php
  import opened Queue
  import opened Faults

  /** The decoded answer of an import-status call; `status` is "" when the answer has none. */
  datatype Reply = Reply(message: Option<string>, status: string)

  /** A status call either throws or answers. */
  datatype StatusCall = Threw(error: string) | Answered(reply: Reply)

  /** The collaborators the reconciler calls, as functions of their arguments. */
  datatype Env = Env(
    isEnabled: int -> bool,                         // helper->isEnabled($websiteId)
    hasClient: int -> bool,                         // getWebsiteApiClient returned a client
    contactImport: (int, string) -> StatusCall,     // getContactsImportByImportId
    transactionalImport: (int, string) -> StatusCall, // getContactsTransactionalDataImportByImportId
    faultReport: (int, string) -> Option<Bytes>,    // getContactImportReportFaults
    dataPairs: string -> seq<DataPair>)             // csv->getDataPairs of the attached file

  /** The remote statuses that mean the import failed (`$importStatuses`). */
  const ImportStatuses: seq<string> := [
    "RejectedByWatchdog",
    "InvalidFileFormat",
    "Unknown",
    "Failed",
    "ExceedsAllowedContactLimit",
    "NotAvailableInThisVersion"
  ]

  const Finished: string := "Finished"

  /** The answer means the import is still running remotely. */
  predicate StillRunning(reply: Reply)
  {
    reply.message.None? && reply.status != Finished && reply.status !in ImportStatuses
  }

  /**
   * The entry as `processResponse` leaves it: failed with the answer's
   * message, imported at `now`, failed with a message naming the remote
   * status, or unchanged while the import is still running.
   */
  function Transition(item: QueueEntry, reply: Reply, now: string): (r: QueueEntry)
    ensures StillRunning(reply) ==> r == item
    ensures !StillRunning(reply) ==>
      && (r.importStatus == Imported <==> reply.message.None? && reply.status == Finished)
      && (r.importStatus == Failed <==> reply.message.Some? || reply.status in ImportStatuses)
    ensures reply.message.Some? ==> r.message == reply.message.value
    ensures reply.message.None? && reply.status in ImportStatuses
        ==> r.message == "Import failed with status " + reply.status
    ensures reply.message.None? && reply.status == Finished ==> r.message == "" && r.importFinished == now
    ensures r.(importStatus := item.importStatus, message := item.message, importFinished := item.importFinished) == item
  {
    if reply.message.Some? then
      item.(importStatus := Failed, message := reply.message.value)
    else if reply.status == Finished then
      item.(importStatus := Imported, importFinished := now, message := "")
    else if reply.status in ImportStatuses then
      item.(importStatus := Failed, message := "Import failed with status " + reply.status)
    else
      item
  }

  /** A status move the queue allows: Importing to Imported or Failed, or no move. */
  predicate Forward(before: ImportStatus, after: ImportStatus)
  {
    before == after || (before == Importing && (after == Imported || after == Failed))
  }

  /** Reconciling an Importing entry only ever moves it forward. */
  lemma TransitionIsForward(item: QueueEntry, reply: Reply, now: string)
    requires item.importStatus == Importing
    ensures Forward(item.importStatus, Transition(item, reply, now).importStatus)
  {
  }

  /**
   * The calls a Finished contact-family import triggers before its entry is
   * saved: the consent cleanup of the attached file and the file's archival,
   * then the fault report of its import.
   */
  function FollowUp(item: QueueEntry, reply: Reply, websiteId: int, env: Env): (effects: seq<Effect>)
    ensures forall e <- effects :: !e.Save? && !e.SyncBatch?
  {
    if reply.message.None? && reply.status == Finished && IsContactFamily(item.importType) then
      ImportedFollowUp(item, websiteId, env)
    else []
  }

  /** The follow-ups of a Finished contact-family import, file first, then faults. */
  function ImportedFollowUp(item: QueueEntry, websiteId: int, env: Env): (effects: seq<Effect>)
    ensures forall e <- effects :: !e.Save? && !e.SyncBatch?
  {
    (if Truthy(item.importFile)
     then [DeleteConsent(ConsentEmails(env.dataPairs(item.importFile))), ArchiveCsv(item.importFile)]
     else [])
    + (if Truthy(item.importId) then FaultEffects(env.faultReport(websiteId, item.importId)) else [])
  }

  /** Everything `processResponse` calls, in order: the follow-ups, then exactly one save. */
  function ResponseEffects(item: QueueEntry, reply: Reply, websiteId: int, env: Env, now: string): seq<Effect>
  {
    FollowUp(item, reply, websiteId, env) + [Save(Transition(item, reply, now))]
  }

  /**
   * A Finished contact-family entry with a file deletes the file's consent
   * emails just before archiving it, and then looks at its fault report only
   * if it has an import id; any other answer or type only saves the entry.
   */
  lemma ResponseEffectsOrder(item: QueueEntry, reply: Reply, websiteId: int, env: Env, now: string)
    ensures var effects := ResponseEffects(item, reply, websiteId, env, now);
      && effects[|effects| - 1] == Save(Transition(item, reply, now))
      && (forall k :: 0 <= k < |effects| - 1 ==> !effects[k].Save?)
      && (forall k :: 0 <= k < |effects| && effects[k].ArchiveCsv? ==>
            k == 1 && effects[0] == DeleteConsent(ConsentEmails(env.dataPairs(item.importFile))))
      && ((exists e <- effects :: e.ArchiveCsv?) <==>
            reply.message.None? && reply.status == Finished && IsContactFamily(item.importType) && Truthy(item.importFile))
      && ((exists e <- effects :: e.Unsubscribe?) ==> Truthy(item.importId) && IsContactFamily(item.importType))
      && (!(reply.message.None? && reply.status == Finished && IsContactFamily(item.importType)) ==>
            effects == [Save(Transition(item, reply, now))])
  {
    var follow := FollowUp(item, reply, websiteId, env);
    var effects := ResponseEffects(item, reply, websiteId, env, now);
    FollowUpShape(item, reply, websiteId, env);
    forall k | 0 <= k < |effects| - 1 ensures !effects[k].Save? && effects[k] == follow[k] {
      assert effects[k] == follow[k];
    }
    assert forall e <- effects :: e in follow || e.Save?;
    assert forall e <- follow :: e in effects;
  }

  /**
   * The follow-ups: a file's consent deletion and archival, in that order,
   * exactly for a Finished contact-family import with a file, then fault
   * report calls, which only unsubscribe, and only for an import id.
   */
  lemma FollowUpShape(item: QueueEntry, reply: Reply, websiteId: int, env: Env)
    ensures var follow := FollowUp(item, reply, websiteId, env);
      && (forall k :: 0 <= k < |follow| && follow[k].ArchiveCsv? ==>
            k == 1 && follow[0] == DeleteConsent(ConsentEmails(env.dataPairs(item.importFile))))
      && ((exists e <- follow :: e.ArchiveCsv?) <==>
            reply.message.None? && reply.status == Finished && IsContactFamily(item.importType) && Truthy(item.importFile))
      && ((exists e <- follow :: e.Unsubscribe?) ==> Truthy(item.importId) && IsContactFamily(item.importType))
      && (!(reply.message.None? && reply.status == Finished && IsContactFamily(item.importType)) ==> follow == [])
  {
    var follow := FollowUp(item, reply, websiteId, env);
    if reply.message.None? && reply.status == Finished && IsContactFamily(item.importType) {
      var consent := if Truthy(item.importFile)
        then [DeleteConsent(ConsentEmails(env.dataPairs(item.importFile))), ArchiveCsv(item.importFile)]
        else [];
      var faults := if Truthy(item.importId) then FaultEffects(env.faultReport(websiteId, item.importId)) else [];
      assert follow == consent + faults;
      assert forall e <- faults :: e.Unsubscribe?;
      assert forall k :: |consent| <= k < |follow| ==> follow[k] == faults[k - |consent|];
      if Truthy(item.importFile) {
        assert follow[1].ArchiveCsv?;
      }
    }
  }

  /** The status call `_checkImportStatus` makes for an entry, chosen by its type. */
  function StatusCallFor(item: QueueEntry, env: Env): StatusCall
  {
    if IsContactFamily(item.importType) then env.contactImport(item.websiteId, item.importId)
    else env.transactionalImport(item.websiteId, item.importId)
  }

  /** Whether the entry's website is enabled and has an API client. */
  predicate HasClient(env: Env, item: QueueEntry)
  {
    env.isEnabled(item.websiteId) && env.hasClient(item.websiteId)
  }

  /** The calls made while visiting entries, and how many were found still running. */
  datatype Visits = Visits(effects: seq<Effect>, unfinished: int)

  /** The visit of one Importing entry. */
  function Visit(item: QueueEntry, env: Env, now: string): (v: Visits)
  {
    if !HasClient(env, item) then Visits([], 0)
    else match StatusCallFor(item, env)
      case Threw(error) => Visits([Save(item.(message := error, importStatus := Failed))], 0)
      case Answered(reply) => Visits(ResponseEffects(item, reply, item.websiteId, env, now), if StillRunning(reply) then 1 else 0)
  }

  /** The visits of `items`, in order. */
  function VisitAll(items: seq<QueueEntry>, env: Env, now: string): (visits: Visits)
    decreases |items|
  {
    if items == [] then Visits([], 0)
    else
      var before := VisitAll(items[..|items| - 1], env, now);
      var v := Visit(items[|items| - 1], env, now);
      Visits(before.effects + v.effects, before.unfinished + v.unfinished)
  }

  /** The ids of the entries saved by a sequence of calls, in order. */
  function SavedIds(effects: seq<Effect>): seq<int>
    decreases |effects|
  {
    if effects == [] then []
    else
      var last := effects[|effects| - 1];
      SavedIds(effects[..|effects| - 1]) + (if last.Save? then [last.entry.id] else [])
  }

  lemma {:induction false} SavedIdsAppend(a: seq<Effect>, b: seq<Effect>)
    ensures SavedIds(a + b) == SavedIds(a) + SavedIds(b)
    decreases |b|
  {
    if b == [] {
      assert a + b == a;
    } else {
      SavedIdsAppend(a, b[..|b| - 1]);
      assert (a + b)[..|a + b| - 1] == a + b[..|b| - 1];
    }
  }

  /** The ids of a sequence of entries, in order. */
  function Ids(items: seq<QueueEntry>): seq<int>
    decreases |items|
  {
    if items == [] then [] else Ids(items[..|items| - 1]) + [items[|items| - 1].id]
  }

  /**
   * Whatever the status call does, an entry with a client is saved exactly
   * once: Failed with the call's error when it throws, otherwise last, as
   * the answer moves it.
   */
  lemma VisitSavesOnce(item: QueueEntry, env: Env, now: string)
    ensures SavedIds(Visit(item, env, now).effects) == if HasClient(env, item) then [item.id] else []
    ensures 0 <= Visit(item, env, now).unfinished <= 1
    ensures HasClient(env, item) && StatusCallFor(item, env).Threw? ==>
      Visit(item, env, now).effects == [Save(item.(message := StatusCallFor(item, env).error, importStatus := Failed))]
    ensures HasClient(env, item) && StatusCallFor(item, env).Answered? ==>
      var effects := Visit(item, env, now).effects;
      effects != [] && effects[|effects| - 1] == Save(Transition(item, StatusCallFor(item, env).reply, now))
  {
    var v := Visit(item, env, now);
    if HasClient(env, item) {
      match StatusCallFor(item, env)
      case Threw(error) =>
        assert v.effects[..0] == [];
      case Answered(reply) =>
        var follow := FollowUp(item, reply, item.websiteId, env);
        SavedIdsAppend(follow, [Save(Transition(item, reply, now))]);
        NoSaves(follow);
        assert [Save(Transition(item, reply, now))][..0] == [];
    }
  }

  /** Each save a visit of an Importing entry makes is of that entry, moved forward. */
  lemma VisitMovesForward(item: QueueEntry, env: Env, now: string)
    requires item.importStatus == Importing
    ensures forall e <- Visit(item, env, now).effects :: e.Save? ==>
      e.entry.id == item.id && Forward(item.importStatus, e.entry.importStatus)
  {
    if HasClient(env, item) && StatusCallFor(item, env).Answered? {
      var reply := StatusCallFor(item, env).reply;
      TransitionIsForward(item, reply, now);
      assert forall e <- Visit(item, env, now).effects ::
        e in FollowUp(item, reply, item.websiteId, env) || e == Save(Transition(item, reply, now));
    }
  }

  /** Every entry a pass over Importing entries saves is one of them, moved forward. */
  lemma {:induction false} VisitAllMovesForward(items: seq<QueueEntry>, env: Env, now: string)
    requires forall it <- items :: it.importStatus == Importing
    ensures forall e <- VisitAll(items, env, now).effects :: e.Save? ==>
      exists it <- items :: it.id == e.entry.id && Forward(it.importStatus, e.entry.importStatus)
    decreases |items|
  {
    if items != [] {
      var init, last := items[..|items| - 1], items[|items| - 1];
      assert forall it <- init :: it in items;
      VisitAllMovesForward(init, env, now);
      VisitMovesForward(last, env, now);
      assert VisitAll(items, env, now).effects == VisitAll(init, env, now).effects + Visit(last, env, now).effects;
    }
  }

  lemma {:induction false} NoSaves(effects: seq<Effect>)
    requires forall e <- effects :: !e.Save?
    ensures SavedIds(effects) == []
    decreases |effects|
  {
    if effects != [] {
      NoSaves(effects[..|effects| - 1]);
    }
  }

  /**
   * A pass saves each entry whose website has a client exactly once, in
   * order, and no other entry; at most one still-running entry is counted
   * per visited entry.
   */
  lemma {:induction false} VisitAllSavesEachOnce(items: seq<QueueEntry>, env: Env, now: string)
    ensures SavedIds(VisitAll(items, env, now).effects) == Ids(Filter(items, (e: QueueEntry) => HasClient(env, e)))
    ensures 0 <= VisitAll(items, env, now).unfinished <= |items|
    decreases |items|
  {
    if items != [] {
      var init, last := items[..|items| - 1], items[|items| - 1];
      var p := (e: QueueEntry) => HasClient(env, e);
      var before, v := VisitAll(init, env, now), Visit(last, env, now);
      assert VisitAll(items, env, now) == Visits(before.effects + v.effects, before.unfinished + v.unfinished);
      VisitAllSavesEachOnce(init, env, now);
      VisitSavesOnce(last, env, now);
      SavedIdsAppend(before.effects, v.effects);
      FilterLast(items, p);
      IdsAppend(Filter(init, p), if p(last) then [last] else []);
    }
  }

  lemma {:induction false} IdsAppend(a: seq<QueueEntry>, b: seq<QueueEntry>)
    ensures Ids(a + b) == Ids(a) + Ids(b)
    decreases |b|
  {
    if b == [] {
      assert a + b == a;
    } else {
      IdsAppend(a, b[..|b| - 1]);
      assert (a + b)[..|a + b| - 1] == a + b[..|b| - 1];
    }
  }
}
