/**
 * The importer queue model itself: the entry it builds and saves in
 * `registerQueue`, the dispatch cycle `processQueue`, and the reconciler
 * methods it runs first. Every collaborator call is appended to `trace`, so
 * each method is specified by the calls it makes and the state it leaves.
 */
module ImporterModel {
  import opened Collections
  import opened Php
  import opened Queue
  import opened Priority
  import opened Dispatch
  import opened Faults
  import opened Reconcile

  /** What the serializer does with a non-empty payload: encode it or throw. */
  datatype Serialized = Encoded(json: string) | SerializeThrew(error: string)

  /** The bulk limit `processQueue` sets before each cycle. */
  const BulkSyncLimit: int := 5

  /** A fresh, unsaved queue entry. */
  const BlankEntry: QueueEntry := QueueEntry(0, Contact, Bulk, 0, "", "", NotImported, "", "", "")

  /** The stored payload: the encoding of a non-empty payload, "" for an empty one. */
  function StoredData(importData: seq<string>, serializer: seq<string> -> Serialized): string
  {
    if importData == [] then ""
    else match serializer(importData)
      case Encoded(json) => json
      case SerializeThrew(_) => ""
  }

  /**
   * Whether `registerQueue` fills in the entry: the payload did not make the
   * serializer throw, and either its encoding or the file name is truthy.
   */
  predicate Accepted(importData: seq<string>, file: string, serializer: seq<string> -> Serialized)
  {
    (importData != [] ==> serializer(importData).Encoded?)
    && (Truthy(StoredData(importData, serializer)) || Truthy(file))
  }

  /**
   * The budgets of a cycle: at most five entries are reconciled, so the
   * still-running count starts the bulk tier within its limit of five, which
   * the tier keeps; the single tier starts from zero and stays within one
   * hundred.
   */
  lemma CycleWithinBudget(rows: seq<QueueEntry>, env: Env, now: string)
    ensures var visits := VisitAll(ImportingItems(rows, BulkSyncLimit), env, now);
      && 0 <= visits.unfinished <= RunTier(BulkPriority(BulkSyncLimit), rows, visits.unfinished).total <= BulkSyncLimit
      && 0 <= RunTier(SinglePriority(), rows, 0).total <= SingleLimit
  {
    var items := ImportingItems(rows, BulkSyncLimit);
    VisitAllSavesEachOnce(items, env, now);
    PlanLimits(BulkSyncLimit);
    TierWithinBudget(BulkPriority(BulkSyncLimit), rows, VisitAll(items, env, now).unfinished, BulkSyncLimit);
    TierWithinBudget(SinglePriority(), rows, 0, SingleLimit);
  }

  class Importer {
    /** The entry `registerQueue` fills in and saves. */
    var row: QueueEntry
    /** `totalItems`: the running count of a dispatch tier. */
    var totalItems: int
    var bulkSyncLimit: int
    var bulkPriority: seq<PriorityRule>
    var singlePriority: seq<PriorityRule>
    /** The collaborator calls made so far, in order. */
    var trace: seq<Effect>

    constructor()
      ensures row == BlankEntry && totalItems == 0 && trace == []
      ensures bulkPriority == [] && singlePriority == []
    {
      row := BlankEntry;
      totalItems := 0;
      bulkSyncLimit := 0;
      bulkPriority := [];
      singlePriority := [];
      trace := [];
    }

    /**
     * `registerQueue`: encodes a non-empty payload, attaches a truthy file
     * name, and when the encoding or the file is truthy fills in the type,
     * payload, website and mode and saves the entry. A throwing serializer
     * or a throwing save makes it answer false; so does an entry with
     * neither payload nor file, which is not saved.
     */
    method RegisterQueue(importType: ImportType, importData: seq<string>, importMode: ImportMode, websiteId: int,
                         file: string, serializer: seq<string> -> Serialized, saveThrows: bool)
      returns (ok: bool)
      modifies this`row, this`trace
      ensures ok <==> Accepted(importData, file, serializer) && !saveThrows
      ensures ok ==> trace == old(trace) + [Save(row)]
      ensures !ok ==> trace == old(trace)
      ensures Accepted(importData, file, serializer) ==>
        row == old(row).(importType := importType, importData := StoredData(importData, serializer),
                         websiteId := websiteId, importMode := importMode,
                         importFile := if Truthy(file) then file else old(row).importFile)
      ensures !Accepted(importData, file, serializer) && !Truthy(file) ==> row == old(row)
      ensures importData != [] && serializer(importData).SerializeThrew? ==> row == old(row)
    {
      var data := "";
      if importData != [] {
        match serializer(importData)
        case SerializeThrew(_) =>
          return false;
        case Encoded(json) =>
          data := json;
      }
      if Truthy(file) {
        row := row.(importFile := file);
      }
      if Truthy(data) || Truthy(file) {
        row := row.(importType := importType, importData := data, websiteId := websiteId, importMode := importMode);
        if saveThrows {
          return false;
        }
        SaveItem(row);
        return true;
      }
      return false;
    }

    /**
     * `processQueue`: reconciles up to five Importing entries, then runs the
     * bulk tier from the number still running remotely, then the single tier
     * from zero. The bulk tier never passes five entries and the single tier
     * never passes its limit of one hundred.
     */
    method ProcessQueue(rows: seq<QueueEntry>, env: Env, now: string)
      modifies this`totalItems, this`bulkSyncLimit, this`bulkPriority, this`singlePriority, this`trace
      ensures bulkSyncLimit == BulkSyncLimit
      ensures bulkPriority == BulkPriority(BulkSyncLimit) && singlePriority == SinglePriority()
      ensures var visits := VisitAll(ImportingItems(rows, BulkSyncLimit), env, now);
              var bulk := RunTier(BulkPriority(BulkSyncLimit), rows, visits.unfinished);
              var single := RunTier(SinglePriority(), rows, 0);
              && trace == old(trace) + visits.effects + bulk.calls + single.calls
              && totalItems == single.total
              && 0 <= visits.unfinished <= bulk.total <= BulkSyncLimit
      ensures 0 <= totalItems <= SingleLimit
    {
      totalItems := 0;
      bulkSyncLimit := BulkSyncLimit;
      SetPriority();
      RunCycle(bulkPriority, singlePriority, rows, env, now);
      CycleWithinBudget(rows, env, now);
    }

    /**
     * The body of `processQueue` once the tiers are installed: reconciles,
     * then dispatches the bulk tier from the still-running count and the
     * single tier from zero.
     */
    method RunCycle(bulkRules: seq<PriorityRule>, singleRules: seq<PriorityRule>, rows: seq<QueueEntry>, env: Env, now: string)
      requires totalItems == 0
      modifies this`totalItems, this`trace
      ensures var visits := VisitAll(ImportingItems(rows, bulkSyncLimit), env, now);
              var bulk := RunTier(bulkRules, rows, visits.unfinished);
              var single := RunTier(singleRules, rows, 0);
              && trace == old(trace) + visits.effects + bulk.calls + single.calls
              && totalItems == single.total
    {
      CheckImportStatus(rows, env, now);
      DispatchTier(bulkRules, rows);
      totalItems := 0;
      DispatchTier(singleRules, rows);
    }

    /** The visits of a one-longer prefix extend those of the prefix by one visit. */
    static lemma VisitAllStep(items: seq<QueueEntry>, i: int, env: Env, now: string)
      requires 0 <= i < |items|
      ensures var prev := VisitAll(items[..i], env, now);
              var v := Visit(items[i], env, now);
              VisitAll(items[..i + 1], env, now) == Visits(prev.effects + v.effects, prev.unfinished + v.unfinished)
    {
      assert items[..i + 1][..i] == items[..i];
    }

    /** Concatenation regroups: the pass's calls then one visit's are appended as one. */
    static lemma SeqAssoc(a: seq<Effect>, b: seq<Effect>, c: seq<Effect>)
      ensures a + b + c == a + (b + c)
    {
    }

    /** `_setPriority`: installs the bulk tier at the current bulk limit and the single tier. */
    method SetPriority()
      modifies this`bulkPriority, this`singlePriority
      ensures bulkPriority == BulkPriority(bulkSyncLimit)
      ensures singlePriority == SinglePriority()
    {
      bulkPriority := BulkPriority(bulkSyncLimit);
      singlePriority := SinglePriority();
    }

    /**
     * One tier of `processQueue`: for each rule in order, while the running
     * total is under the rule's limit, fetches up to the remaining budget and
     * hands a non-empty batch to the rule's worker.
     */
    method DispatchTier(rules: seq<PriorityRule>, rows: seq<QueueEntry>)
      modifies this`totalItems, this`trace
      ensures trace == old(trace) + RunTier(rules, rows, old(totalItems)).calls
      ensures totalItems == RunTier(rules, rows, old(totalItems)).total
    {
      var i := 0;
      while i < |rules|
        invariant 0 <= i <= |rules|
        invariant trace == old(trace) + RunTier(rules[..i], rows, old(totalItems)).calls
        invariant totalItems == RunTier(rules[..i], rows, old(totalItems)).total
      {
        var rule := rules[i];
        assert rules[..i + 1][..i] == rules[..i];
        if totalItems < rule.limit {
          var collection := QueueByTypeAndMode(rows, rule.types, rule.mode, rule.limit - totalItems);
          if |collection| > 0 {
            totalItems := totalItems + |collection|;
            trace := trace + [SyncBatch(rule.worker, collection)];
          }
        }
        i := i + 1;
      }
      assert rules[..i] == rules;
    }

    /**
     * `_checkImportStatus`: visits up to `bulkSyncLimit` Importing entries in
     * store order; an entry whose website has a client is asked for its
     * status, failed with the error when the call throws, and otherwise
     * handed to `processResponse`.
     */
    method CheckImportStatus(rows: seq<QueueEntry>, env: Env, now: string)
      modifies this`totalItems, this`trace
      ensures var visits := VisitAll(ImportingItems(rows, bulkSyncLimit), env, now);
              trace == old(trace) + visits.effects && totalItems == old(totalItems) + visits.unfinished
    {
      var items := ImportingItems(rows, bulkSyncLimit);
      var i := 0;
      assert items[..0] == [];
      assert VisitAll(items[..0], env, now) == Visits([], 0);
      while i < |items|
        invariant 0 <= i <= |items|
        invariant trace == old(trace) + VisitAll(items[..i], env, now).effects
        invariant totalItems == old(totalItems) + VisitAll(items[..i], env, now).unfinished
      {
        var item := items[i];
        ghost var prev := VisitAll(items[..i], env, now);
        ghost var v := Visit(item, env, now);
        ghost var mid := trace;
        assert mid == old(trace) + prev.effects;
        VisitAllStep(items, i, env, now);
        var websiteId := item.websiteId;
        var client := false;
        if env.isEnabled(websiteId) {
          client := env.hasClient(websiteId);
        }
        if client {
          var response := StatusCallFor(item, env);
          match response
          case Threw(error) =>
            SaveItem(item.(message := error, importStatus := Failed));
            assert v.effects == [Save(item.(message := error, importStatus := Failed))];
          case Answered(reply) =>
            ProcessResponse(reply, item, websiteId, env, now);
            assert v.effects == ResponseEffects(item, reply, websiteId, env, now);
        } else {
          assert v == Visits([], 0);
        }
        assert trace == mid + v.effects;
        SeqAssoc(old(trace), prev.effects, v.effects);
        ghost var next := VisitAll(items[..i + 1], env, now);
        assert next.effects == prev.effects + v.effects;
        assert trace == old(trace) + next.effects;
        i := i + 1;
      }
      assert items[..i] == items;
    }

    /**
     * `processResponse`: moves the entry by the answer, runs the follow-ups
     * of a Finished contact-family import, counts an import still running,
     * and saves the entry last.
     */
    method ProcessResponse(reply: Reply, item: QueueEntry, websiteId: int, env: Env, now: string)
      modifies this`totalItems, this`trace
      ensures trace == old(trace) + ResponseEffects(item, reply, websiteId, env, now)
      ensures totalItems == old(totalItems) + (if StillRunning(reply) then 1 else 0)
    {
      var entry := item;
      ghost var before := trace;
      if reply.message.Some? {
        entry := entry.(importStatus := Failed, message := reply.message.value);
      } else {
        if reply.status == Finished {
          entry := entry.(importStatus := Imported, importFinished := now, message := "");
          if IsContactFamily(entry.importType) {
            FinishContactImport(entry, websiteId, env);
          }
        } else if reply.status in ImportStatuses {
          entry := entry.(importStatus := Failed, message := "Import failed with status " + reply.status);
        } else {
          totalItems := totalItems + 1;
        }
      }
      assert trace == before + FollowUp(item, reply, websiteId, env);
      SaveItem(entry);
    }

    /**
     * The Finished contact-family branch of `processResponse`: cleans the
     * consent of an attached file and archives it, then processes the
     * import's fault report when it has an import id.
     */
    method FinishContactImport(entry: QueueEntry, websiteId: int, env: Env)
      modifies this`trace
      ensures trace == old(trace) + ImportedFollowUp(entry, websiteId, env)
    {
      if Truthy(entry.importFile) {
        CleanProcessedConsent(entry.importFile, env);
        trace := trace + [ArchiveCsv(entry.importFile)];
      }
      if Truthy(entry.importId) {
        ProcessContactImportReportFaults(entry.importId, websiteId, env);
      }
    }

    /** `saveItem`: writes the entry to the store. */
    method SaveItem(itemToSave: QueueEntry)
      modifies this`trace
      ensures trace == old(trace) + [Save(itemToSave)]
    {
      trace := trace + [Save(itemToSave)];
    }

    /**
     * `processContactImportReportFaults`: fetches the fault report of an
     * import and unsubscribes the emails of the rows whose reason is listed.
     */
    method ProcessContactImportReportFaults(id: string, websiteId: int, env: Env)
      modifies this`trace
      ensures trace == old(trace) + FaultEffects(env.faultReport(websiteId, id))
    {
      var report := env.faultReport(websiteId, id);
      if report.Some? && TruthyBytes(report.value) {
        var reportData := Explode(Newline, RemoveUtf8Bom(report.value))[1..];
        if reportData != [] {
          var contacts := CollectFaultEmails(reportData);
          trace := trace + [Unsubscribe(contacts)];
        }
      }
    }

    /**
     * `cleanProcessedConsent`: deletes the consent records of every email of
     * the file's index except the header's.
     */
    method CleanProcessedConsent(file: string, env: Env)
      modifies this`trace
      ensures trace == old(trace) + [DeleteConsent(ConsentEmails(env.dataPairs(file)))]
    {
      var index := env.dataPairs(file);
      var emails := ConsentEmails(index);
      trace := trace + [DeleteConsent(emails)];
    }
  }
}
