/**
 * The sync queue: entries, their closed sets of types, modes and statuses,
 * the two reads the importer makes of the queue store, and the calls the
 * importer makes to its collaborators.
 */
module Queue {
  import opened Collections
  import opened Php

  /** `import_status` of an entry. */
  datatype ImportStatus = NotImported | Importing | Imported | Failed
  {
    /** The integer stored for the status. */
    function Code(): int
    {
      match this
      case NotImported => 0
      case Importing => 1
      case Imported => 2
      case Failed => 3
    }
  }

  /** `import_type`. */
  datatype ImportType = Contact | Guest | Subscriber | Orders | Catalog | Reviews | Wishlist | Quote

  /** `import_mode`. */
  datatype ImportMode =
    | Bulk
    | Single
    | SingleDelete
    | ContactDelete
    | SubscriberUpdate
    | ContactEmailUpdate
    | SubscriberResubscribed

  // The update and resubscribe type constants carry the same strings as the
  // plain contact and subscriber types, so they are the same types here.
  const ImportTypeContactUpdate: ImportType := Contact
  const ImportTypeSubscriberUpdate: ImportType := Subscriber
  const ImportTypeSubscriberResubscribed: ImportType := Subscriber

  /** The types whose imports go to the contact import endpoints. */
  predicate IsContactFamily(t: ImportType)
  {
    t == Contact || t == Subscriber || t == Guest
  }

  /** One row of the sync queue. */
  datatype QueueEntry = QueueEntry(
    id: int,
    importType: ImportType,
    importMode: ImportMode,
    websiteId: int,
    importData: string,      // the serialized payload; "" for an empty one
    importFile: string,      // the attached file; "" when there is none
    importStatus: ImportStatus,
    importId: string,        // the remote import id; "" until one is assigned
    importFinished: string,
    message: string)

  /** The worker class a dispatched batch is handed to. */
  datatype Worker = ContactBulkWorker | TdBulkWorker | ContactUpdateWorker | TdUpdateWorker | ContactDeleteWorker | TdDeleteWorker

  /** A call the importer makes to one of its collaborators. */
  datatype Effect =
    | Save(entry: QueueEntry)                      // importerResource->save
    | SyncBatch(worker: Worker, batch: seq<QueueEntry>)  // the worker's sync
    | DeleteConsent(emails: seq<string>)           // consentResource->deleteConsentByEmails
    | ArchiveCsv(file: string)                     // fileHelper->archiveCSV
    | Unsubscribe(faulty: seq<Bytes>)              // contact->unsubscribe

  /**
   * The store's `getItemsWithImportingStatus($limit)`: the entries marked
   * Importing, in store order, at most `limit` of them.
   */
  function ImportingItems(rows: seq<QueueEntry>, limit: int): (items: seq<QueueEntry>)
    ensures |items| <= if limit < 0 then 0 else limit
    ensures forall e <- items :: e.importStatus == Importing && e in rows
    ensures |items| < limit ==> forall e <- rows :: e.importStatus == Importing ==> e in items
  {
    FilterMembers(rows, (e: QueueEntry) => e.importStatus == Importing);
    Take(Filter(rows, (e: QueueEntry) => e.importStatus == Importing), limit)
  }

  /** Whether a fetch for `types` in `mode` selects the entry. */
  predicate Selects(types: seq<ImportType>, mode: ImportMode, e: QueueEntry)
  {
    e.importStatus == NotImported && e.importType in types && e.importMode == mode
  }

  /**
   * The store's `getQueueByTypeAndMode($types, $mode, $limit)`: entries not
   * yet imported, of one of the types and of the mode, in store order, at
   * most `limit` of them.
   */
  function QueueByTypeAndMode(rows: seq<QueueEntry>, types: seq<ImportType>, mode: ImportMode, limit: int)
    : (batch: seq<QueueEntry>)
    ensures |batch| <= if limit < 0 then 0 else limit
    ensures forall e <- batch :: Selects(types, mode, e) && e in rows
    ensures |batch| < limit ==> forall e <- rows :: Selects(types, mode, e) ==> e in batch
  {
    FilterMembers(rows, (e: QueueEntry) => Selects(types, mode, e));
    Take(Filter(rows, (e: QueueEntry) => Selects(types, mode, e)), limit)
  }
}
