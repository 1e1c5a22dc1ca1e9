/**
 * One tier of `processQueue`'s dispatch loop: a running total caps how many
 * entries each rule may fetch, and each non-empty batch goes to the rule's
 * worker.
 */
module Dispatch {
  import opened Queue
  import opened Priority

  /** The worker calls made so far in a tier and the running total `totalItems`. */
  datatype Tier = Tier(calls: seq<Effect>, total: int)

  /** The batch a rule fetches while the running total is `total`. */
  function RuleBatch(rows: seq<QueueEntry>, rule: PriorityRule, total: int): seq<QueueEntry>
  {
    QueueByTypeAndMode(rows, rule.types, rule.mode, rule.limit - total)
  }

  /** One pass of the tier loop's body for `rule`. */
  function Step(t: Tier, rule: PriorityRule, rows: seq<QueueEntry>): (r: Tier)
    ensures t.total <= r.total
  {
    if t.total < rule.limit then
      var batch := RuleBatch(rows, rule, t.total);
      if |batch| > 0 then Tier(t.calls + [SyncBatch(rule.worker, batch)], t.total + |batch|)
      else t
    else t
  }

  /** The tier loop over `rules`, in order, from running total `start`. */
  function RunTier(rules: seq<PriorityRule>, rows: seq<QueueEntry>, start: int): (r: Tier)
    ensures start <= r.total
    decreases |rules|
  {
    if rules == [] then Tier([], start)
    else Step(RunTier(rules[..|rules| - 1], rows, start), rules[|rules| - 1], rows)
  }

  /** The number of entries handed to workers by a sequence of calls. */
  function Dispatched(calls: seq<Effect>): int
    decreases |calls|
  {
    if calls == [] then 0
    else Dispatched(calls[..|calls| - 1]) + (if calls[|calls| - 1].SyncBatch? then |calls[|calls| - 1].batch| else 0)
  }

  /** Every rule of the sequence has the same limit. */
  predicate UniformLimit(rules: seq<PriorityRule>, limit: int)
  {
    forall r <- rules :: r.limit == limit
  }

  /** Each tier of the plan shares one limit: the bulk limit, or the single limit. */
  lemma PlanLimits(bulkSyncLimit: int)
    ensures UniformLimit(BulkPriority(bulkSyncLimit), bulkSyncLimit)
    ensures UniformLimit(SinglePriority(), SingleLimit)
  {
    var bulk, single := BulkPriority(bulkSyncLimit), SinglePriority();
    assert forall r <- single :: r.limit == SingleLimit;
    assert forall r <- bulk :: r.limit == bulkSyncLimit;
  }

  /**
   * The running total never passes the tier's limit: starting at or below
   * the limit, it ends between its start and the limit.
   */
  lemma {:induction false} TierWithinBudget(rules: seq<PriorityRule>, rows: seq<QueueEntry>, start: int, limit: int)
    requires UniformLimit(rules, limit)
    requires start <= limit
    ensures start <= RunTier(rules, rows, start).total <= limit
    decreases |rules|
  {
    if rules != [] {
      TierWithinBudget(rules[..|rules| - 1], rows, start, limit);
    }
  }

  /**
   * Once the running total has reached the limit after the first `k` rules,
   * no later rule fetches or dispatches anything.
   */
  lemma {:induction false} TierSkipsWhenFull(rules: seq<PriorityRule>, rows: seq<QueueEntry>, start: int, limit: int, k: nat)
    requires UniformLimit(rules, limit)
    requires k <= |rules| && RunTier(rules[..k], rows, start).total >= limit
    ensures RunTier(rules, rows, start) == RunTier(rules[..k], rows, start)
    decreases |rules|
  {
    if k < |rules| {
      var init := rules[..|rules| - 1];
      assert init[..k] == rules[..k];
      TierSkipsWhenFull(init, rows, start, limit, k);
      assert rules[|rules| - 1] in rules;
    } else {
      assert rules[..k] == rules;
    }
  }

  /**
   * The running total grows by exactly the sizes of the batches handed to
   * workers, every call is a non-empty batch, and there is at most one call
   * per rule.
   */
  lemma {:induction false} TierAccounting(rules: seq<PriorityRule>, rows: seq<QueueEntry>, start: int)
    ensures RunTier(rules, rows, start).total == start + Dispatched(RunTier(rules, rows, start).calls)
    ensures forall c <- RunTier(rules, rows, start).calls :: c.SyncBatch? && |c.batch| > 0
    ensures |RunTier(rules, rows, start).calls| <= |rules|
    decreases |rules|
  {
    if rules != [] {
      var before := RunTier(rules[..|rules| - 1], rows, start);
      TierAccounting(rules[..|rules| - 1], rows, start);
      var after := RunTier(rules, rows, start);
      if after.calls != before.calls {
        assert after.calls[..|after.calls| - 1] == before.calls;
      }
    }
  }

  /**
   * Every batch handed to a worker consists of entries not yet imported,
   * selected by one of the tier's rules whose worker it is.
   */
  lemma {:induction false} TierCallsFollowRules(rules: seq<PriorityRule>, rows: seq<QueueEntry>, start: int)
    ensures forall c <- RunTier(rules, rows, start).calls ::
      c.SyncBatch? && exists r <- rules :: r.worker == c.worker && forall e <- c.batch :: e in rows && Selects(r.types, r.mode, e)
    decreases |rules|
  {
    if rules != [] {
      var init := rules[..|rules| - 1];
      var last := rules[|rules| - 1];
      TierCallsFollowRules(init, rows, start);
      var before := RunTier(init, rows, start);
      forall c <- RunTier(rules, rows, start).calls
        ensures c.SyncBatch? && exists r <- rules :: r.worker == c.worker && forall e <- c.batch :: e in rows && Selects(r.types, r.mode, e)
      {
        if c in before.calls {
          var r :| r in init && r.worker == c.worker && forall e <- c.batch :: e in rows && Selects(r.types, r.mode, e);
          assert r in rules;
        } else {
          assert c == SyncBatch(last.worker, RuleBatch(rows, last, before.total));
          assert last in rules;
        }
      }
    }
  }

  /**
   * A tier that ends under its limit leaves nothing behind: every entry
   * that one of its rules selects is in a batch handed to a worker.
   */
  lemma {:induction false} TierDispatchesAllSelected(rules: seq<PriorityRule>, rows: seq<QueueEntry>, start: int, limit: int)
    requires UniformLimit(rules, limit)
    requires RunTier(rules, rows, start).total < limit
    ensures forall r <- rules, e <- rows :: Selects(r.types, r.mode, e) ==>
      exists c <- RunTier(rules, rows, start).calls :: c.SyncBatch? && e in c.batch
    decreases |rules|
  {
    if rules != [] {
      var init, last := rules[..|rules| - 1], rules[|rules| - 1];
      var before := RunTier(init, rows, start);
      var after := RunTier(rules, rows, start);
      StepKeepsCalls(before, last, rows);
      TierDispatchesAllSelected(init, rows, start, limit);
      LastRuleDispatchesSelected(rules, rows, start, limit);
      assert forall r <- rules :: r in init || r == last;
    }
  }

  /** A step keeps the calls made before it. */
  lemma StepKeepsCalls(t: Tier, rule: PriorityRule, rows: seq<QueueEntry>)
    ensures forall c <- t.calls :: c in Step(t, rule, rows).calls
  {
  }

  /**
   * In a tier that ends under its limit, the last rule's fetch was short of
   * its budget, so every entry it selects was in its batch.
   */
  lemma LastRuleDispatchesSelected(rules: seq<PriorityRule>, rows: seq<QueueEntry>, start: int, limit: int)
    requires UniformLimit(rules, limit)
    requires rules != [] && RunTier(rules, rows, start).total < limit
    ensures var last := rules[|rules| - 1];
      forall e <- rows :: Selects(last.types, last.mode, e) ==>
        exists c <- RunTier(rules, rows, start).calls :: c.SyncBatch? && e in c.batch
  {
    var init, last := rules[..|rules| - 1], rules[|rules| - 1];
    var before := RunTier(init, rows, start);
    var after := RunTier(rules, rows, start);
    var batch := RuleBatch(rows, last, before.total);
    assert after == Step(before, last, rows);
    assert last in rules;
    if |batch| > 0 {
      assert after.calls == before.calls + [SyncBatch(last.worker, batch)];
      assert SyncBatch(last.worker, batch) in after.calls;
    }
  }
}
