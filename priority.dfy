/**
 * The importer's priority plan (`_setPriority`): the ordered rules of the
 * bulk tier and of the single tier, and which rule serves which entries.
 */
module Priority {
  import opened Collections
  import opened Queue

  /** `SYNC_SINGLE_LIMIT_NUMBER`: the per-cycle limit of every single-tier rule. */
  const SingleLimit: int := 100

  /** One dispatch rule: the entry types and mode it fetches, its worker and its limit. */
  datatype PriorityRule = PriorityRule(types: seq<ImportType>, mode: ImportMode, worker: Worker, limit: int)

  /** The bulk tier: contacts, then orders, then the other transactional data. */
  function BulkPriority(bulkSyncLimit: int): (rules: seq<PriorityRule>)
    ensures |rules| == 3
    ensures forall r <- rules :: r.mode == Bulk && r.limit == bulkSyncLimit
  {
    [ PriorityRule([Contact, Guest, Subscriber], Bulk, ContactBulkWorker, bulkSyncLimit),
      PriorityRule([Orders], Bulk, TdBulkWorker, bulkSyncLimit),
      PriorityRule([Catalog, Reviews, Wishlist], Bulk, TdBulkWorker, bulkSyncLimit) ]
  }

  /**
   * The single tier: resubscribes, subscriber updates and email changes come
   * before the order and catalog updates and the deletes.
   */
  function SinglePriority(): (rules: seq<PriorityRule>)
    ensures |rules| == 7
    ensures forall r <- rules :: r.mode != Bulk && r.limit == SingleLimit
  {
    [ PriorityRule([ImportTypeSubscriberResubscribed], SubscriberResubscribed, ContactUpdateWorker, SingleLimit),
      PriorityRule([ImportTypeSubscriberUpdate], SubscriberUpdate, ContactUpdateWorker, SingleLimit),
      PriorityRule([ImportTypeContactUpdate], ContactEmailUpdate, ContactUpdateWorker, SingleLimit),
      PriorityRule([Orders], Single, TdUpdateWorker, SingleLimit),
      PriorityRule([Catalog, Wishlist], Single, TdUpdateWorker, SingleLimit),
      PriorityRule([Contact], ContactDelete, ContactDeleteWorker, SingleLimit),
      PriorityRule([Catalog, Reviews, Wishlist, Orders], SingleDelete, TdDeleteWorker, SingleLimit) ]
  }

  /** Both tiers, bulk first, as one sequence of ten rules. */
  function Plan(bulkSyncLimit: int): (plan: seq<PriorityRule>)
    ensures |plan| == 10
  {
    BulkPriority(bulkSyncLimit) + SinglePriority()
  }

  /** Whether a rule fetches entries of type `t` in mode `m`. */
  predicate Serves(rule: PriorityRule, t: ImportType, m: ImportMode)
  {
    t in rule.types && m == rule.mode
  }

  /**
   * A routing table written independently of the plan: the position in the
   * plan of the rule that dispatches entries of type `t` in mode `m`, or
   * None when no rule does.
   */
  function Route(t: ImportType, m: ImportMode): (r: Option<nat>)
    ensures r.Some? ==> r.value < 10
  {
    match m
    case Bulk =>
      if t == Contact || t == Guest || t == Subscriber then Some(0)
      else if t == Orders then Some(1)
      else if t == Catalog || t == Reviews || t == Wishlist then Some(2)
      else None
    case SubscriberResubscribed => if t == Subscriber then Some(3) else None
    case SubscriberUpdate => if t == Subscriber then Some(4) else None
    case ContactEmailUpdate => if t == Contact then Some(5) else None
    case Single =>
      if t == Orders then Some(6)
      else if t == Catalog || t == Wishlist then Some(7)
      else None
    case ContactDelete => if t == Contact then Some(8) else None
    case SingleDelete =>
      if t == Catalog || t == Reviews || t == Wishlist || t == Orders then Some(9) else None
  }

  /**
   * A second table written independently of the plan: the worker that
   * receives entries of type `t` in mode `m`, or None when no rule fetches
   * them.
   */
  function RouteWorker(t: ImportType, m: ImportMode): (w: Option<Worker>)
    ensures w.Some? <==> Route(t, m).Some?
  {
    match m
    case Bulk =>
      if t == Contact || t == Guest || t == Subscriber then Some(ContactBulkWorker)
      else if t == Orders || t == Catalog || t == Reviews || t == Wishlist then Some(TdBulkWorker)
      else None
    case SubscriberResubscribed => if t == Subscriber then Some(ContactUpdateWorker) else None
    case SubscriberUpdate => if t == Subscriber then Some(ContactUpdateWorker) else None
    case ContactEmailUpdate => if t == Contact then Some(ContactUpdateWorker) else None
    case Single => if t == Orders || t == Catalog || t == Wishlist then Some(TdUpdateWorker) else None
    case ContactDelete => if t == Contact then Some(ContactDeleteWorker) else None
    case SingleDelete =>
      if t == Catalog || t == Reviews || t == Wishlist || t == Orders then Some(TdDeleteWorker) else None
  }

  /** The plan serves each (type, mode) pair with exactly the rule the routing table names,
   * and that rule hands the pair to the worker the worker table names. */
  lemma PlanRouting(bulkSyncLimit: int, t: ImportType, m: ImportMode, i: nat)
    requires i < |Plan(bulkSyncLimit)|
    ensures Serves(Plan(bulkSyncLimit)[i], t, m) <==> Route(t, m) == Some(i)
    ensures Serves(Plan(bulkSyncLimit)[i], t, m) ==> RouteWorker(t, m) == Some(Plan(bulkSyncLimit)[i].worker)
  {
    var L := bulkSyncLimit;
    var plan := Plan(L);
    var rule := plan[i];
    if i < 3 {
      assert rule == BulkPriority(L)[i];
      BulkRouting(L, t, m, i);
    } else {
      assert rule == SinglePriority()[i - 3];
      SingleRouting(t, m, i - 3);
    }
  }

  lemma BulkRouting(bulkSyncLimit: int, t: ImportType, m: ImportMode, i: nat)
    requires i < 3
    ensures Serves(BulkPriority(bulkSyncLimit)[i], t, m) <==> Route(t, m) == Some(i)
    ensures Serves(BulkPriority(bulkSyncLimit)[i], t, m) ==> RouteWorker(t, m) == Some(BulkPriority(bulkSyncLimit)[i].worker)
  {
    if i == 0 {
      BulkContactRouting(bulkSyncLimit, t, m);
    } else if i == 1 {
      BulkOrderRouting(bulkSyncLimit, t, m);
    } else {
      BulkCatalogRouting(bulkSyncLimit, t, m);
    }
  }

  lemma SingleRouting(t: ImportType, m: ImportMode, k: nat)
    requires k < 7
    ensures Serves(SinglePriority()[k], t, m) <==> Route(t, m) == Some(k + 3)
    ensures Serves(SinglePriority()[k], t, m) ==> RouteWorker(t, m) == Some(SinglePriority()[k].worker)
  {
    if k == 0 {
      ResubscribeRouting(t, m);
    } else if k == 1 {
      SubscriberUpdateRouting(t, m);
    } else if k == 2 {
      EmailUpdateRouting(t, m);
    } else if k == 3 {
      OrderUpdateRouting(t, m);
    } else if k == 4 {
      CatalogUpdateRouting(t, m);
    } else if k == 5 {
      ContactDeleteRouting(t, m);
    } else {
      TdDeleteRouting(t, m);
    }
  }

  /* One lemma per rule, so that each rule is matched against the routing table on its own. */

  lemma BulkContactRouting(bulkSyncLimit: int, t: ImportType, m: ImportMode)
    ensures Serves(BulkPriority(bulkSyncLimit)[0], t, m) <==> Route(t, m) == Some(0)
    ensures Serves(BulkPriority(bulkSyncLimit)[0], t, m) ==> RouteWorker(t, m) == Some(BulkPriority(bulkSyncLimit)[0].worker)
  {
  }

  lemma BulkOrderRouting(bulkSyncLimit: int, t: ImportType, m: ImportMode)
    ensures Serves(BulkPriority(bulkSyncLimit)[1], t, m) <==> Route(t, m) == Some(1)
    ensures Serves(BulkPriority(bulkSyncLimit)[1], t, m) ==> RouteWorker(t, m) == Some(BulkPriority(bulkSyncLimit)[1].worker)
  {
  }

  lemma BulkCatalogRouting(bulkSyncLimit: int, t: ImportType, m: ImportMode)
    ensures Serves(BulkPriority(bulkSyncLimit)[2], t, m) <==> Route(t, m) == Some(2)
    ensures Serves(BulkPriority(bulkSyncLimit)[2], t, m) ==> RouteWorker(t, m) == Some(BulkPriority(bulkSyncLimit)[2].worker)
  {
  }

  lemma ResubscribeRouting(t: ImportType, m: ImportMode)
    ensures Serves(SinglePriority()[0], t, m) <==> Route(t, m) == Some(3)
    ensures Serves(SinglePriority()[0], t, m) ==> RouteWorker(t, m) == Some(SinglePriority()[0].worker)
  {
  }

  lemma SubscriberUpdateRouting(t: ImportType, m: ImportMode)
    ensures Serves(SinglePriority()[1], t, m) <==> Route(t, m) == Some(4)
    ensures Serves(SinglePriority()[1], t, m) ==> RouteWorker(t, m) == Some(SinglePriority()[1].worker)
  {
  }

  lemma EmailUpdateRouting(t: ImportType, m: ImportMode)
    ensures Serves(SinglePriority()[2], t, m) <==> Route(t, m) == Some(5)
    ensures Serves(SinglePriority()[2], t, m) ==> RouteWorker(t, m) == Some(SinglePriority()[2].worker)
  {
  }

  lemma OrderUpdateRouting(t: ImportType, m: ImportMode)
    ensures Serves(SinglePriority()[3], t, m) <==> Route(t, m) == Some(6)
    ensures Serves(SinglePriority()[3], t, m) ==> RouteWorker(t, m) == Some(SinglePriority()[3].worker)
  {
  }

  lemma CatalogUpdateRouting(t: ImportType, m: ImportMode)
    ensures Serves(SinglePriority()[4], t, m) <==> Route(t, m) == Some(7)
    ensures Serves(SinglePriority()[4], t, m) ==> RouteWorker(t, m) == Some(SinglePriority()[4].worker)
  {
  }

  lemma ContactDeleteRouting(t: ImportType, m: ImportMode)
    ensures Serves(SinglePriority()[5], t, m) <==> Route(t, m) == Some(8)
    ensures Serves(SinglePriority()[5], t, m) ==> RouteWorker(t, m) == Some(SinglePriority()[5].worker)
  {
  }

  lemma TdDeleteRouting(t: ImportType, m: ImportMode)
    ensures Serves(SinglePriority()[6], t, m) <==> Route(t, m) == Some(9)
    ensures Serves(SinglePriority()[6], t, m) ==> RouteWorker(t, m) == Some(SinglePriority()[6].worker)
  {
  }

  /** No two rules of the plan fetch the same entry. */
  lemma RulesDisjoint(bulkSyncLimit: int, i: nat, j: nat, e: QueueEntry)
    requires i < |Plan(bulkSyncLimit)| && j < |Plan(bulkSyncLimit)|
    requires Selects(Plan(bulkSyncLimit)[i].types, Plan(bulkSyncLimit)[i].mode, e)
    requires Selects(Plan(bulkSyncLimit)[j].types, Plan(bulkSyncLimit)[j].mode, e)
    ensures i == j
  {
    PlanRouting(bulkSyncLimit, e.importType, e.importMode, i);
    PlanRouting(bulkSyncLimit, e.importType, e.importMode, j);
  }

  /**
   * An entry a rule's fetch returns is one the routing table sends to that
   * rule, and it goes to the worker the worker table names: a bulk contact
   * entry is fetched by the first bulk rule and by no other.
   */
  lemma FetchedOnlyByItsRule(rows: seq<QueueEntry>, bulkSyncLimit: int, i: nat, n: int, e: QueueEntry)
    requires i < |Plan(bulkSyncLimit)|
    requires e in QueueByTypeAndMode(rows, Plan(bulkSyncLimit)[i].types, Plan(bulkSyncLimit)[i].mode, n)
    ensures Route(e.importType, e.importMode) == Some(i)
    ensures RouteWorker(e.importType, e.importMode) == Some(Plan(bulkSyncLimit)[i].worker)
  {
    PlanRouting(bulkSyncLimit, e.importType, e.importMode, i);
  }

  /** An entry not yet imported whose pair is routed is selectable by its rule. */
  lemma RoutedIsSelectable(bulkSyncLimit: int, e: QueueEntry, i: nat)
    requires e.importStatus == NotImported
    requires Route(e.importType, e.importMode) == Some(i)
    ensures i < |Plan(bulkSyncLimit)|
    ensures Selects(Plan(bulkSyncLimit)[i].types, Plan(bulkSyncLimit)[i].mode, e)
  {
    assert i < 10;
    PlanRouting(bulkSyncLimit, e.importType, e.importMode, i);
  }
}
