/** The store-wide dedup guarantee, over whole poll iterations. */
module Dedup {
  import opened Wrappers
  import opened Types
  import opened CircuitBreakers
  import opened Store
  import opened Poller

  /**
   * The guarantee for one target: no id twice in the seen list, no review twice
   * in the log, and every logged review's id in the seen list.
   */
  ghost predicate Deduplicated(s: StoreSnapshot, k: string)
  {
    && NoDuplicates(SeenOf(s.entries, k))
    && NoDuplicates(LoggedIds(LogOf(s.logs, k)))
    && IdSet(LoggedIds(LogOf(s.logs, k))) <= IdSet(SeenOf(s.entries, k))
  }

  /** An iteration whose log write succeeds keeps the target deduplicated, whatever its pages hold. */
  lemma IterationKeepsDedup(app: AppConfig, now: Time, pages: seq<PageResult>, saveFails: bool,
                            threshold: int, cooldown: int, before: BreakerState, after: BreakerState,
                            store0: StoreSnapshot, store1: StoreSnapshot, outcome: PollOutcome)
    requires |pages| == MaxPages
    requires IterationEffect(app, now, pages, None, saveFails, threshold, cooldown,
                             before, after, store0, store1, outcome)
    requires Deduplicated(store0, StoreKey(app.appId, app.country))
    ensures Deduplicated(store1, StoreKey(app.appId, app.country))
  {
    var k := StoreKey(app.appId, app.country);
    var (allowed, trial) := AllowStep(before, now);
    var seenList := SeenOf(store0.entries, k);
    var it := ScanPages(pages, 0, IdSet(seenList), []);
    if allowed && !it.failed {
      ScanPagesSpec(pages, IdSet(seenList));
      assert store1 == AppendEffect(store0, k, it.found, IdsOf(it.found), now, None, saveFails).0;
      AppendKeepsDedup(store0, k, it.found, now, saveFails);
    }
  }

  /** Appending reviews with distinct ids, none of them seen, keeps the target deduplicated. */
  lemma AppendKeepsDedup(store0: StoreSnapshot, k: string, found: seq<Review>, now: Time, saveFails: bool)
    requires Deduplicated(store0, k)
    requires NoDuplicates(IdsOf(found)) && IdSet(IdsOf(found)) !! IdSet(SeenOf(store0.entries, k))
    ensures Deduplicated(AppendEffect(store0, k, found, IdsOf(found), now, None, saveFails).0, k)
  {
    var store1 := AppendEffect(store0, k, found, IdsOf(found), now, None, saveFails).0;
    var seenList := SeenOf(store0.entries, k);
    var ids := IdsOf(found);
    var log0 := LogOf(store0.logs, k);
    assert found[..|found|] == found;
    assert LogOf(store1.logs, k) == log0 + EncodeAll(found);
    LoggedIdsAppend(log0, EncodeAll(found));
    LoggedIdsEncodeAll(found);
    assert LoggedIds(LogOf(store1.logs, k)) == LoggedIds(log0) + ids;
    NoDuplicatesAppend(LoggedIds(log0), ids);
    assert SeenOf(store1.entries, k) == MergeIds(seenList, ids);
    MergeIdsSpec(seenList, ids);
    assert IdSet(LoggedIds(log0) + ids) == IdSet(LoggedIds(log0)) + IdSet(ids);
  }

  /** What an iteration that reached the store did to the target's log and seen list. */
  lemma StoredIteration(app: AppConfig, now: Time, pages: seq<PageResult>, logFault: Option<nat>, saveFails: bool,
                        threshold: int, cooldown: int, before: BreakerState, after: BreakerState,
                        store0: StoreSnapshot, store1: StoreSnapshot, outcome: PollOutcome)
    requires |pages| == MaxPages
    requires IterationEffect(app, now, pages, logFault, saveFails, threshold, cooldown,
                             before, after, store0, store1, outcome)
    requires outcome.Stored?
    ensures var k := StoreKey(app.appId, app.country);
            && outcome.appended == ScanPages(pages, 0, IdSet(SeenOf(store0.entries, k)), []).found
            && var reached := if logFault.Some? && logFault.value < |outcome.appended| then logFault.value
                              else |outcome.appended|;
               && LogOf(store1.logs, k) == LogOf(store0.logs, k) + EncodeAll(outcome.appended[..reached])
               && (logFault.Some? ==> store1.entries == store0.entries)
  {
  }

  /** A batch logged in part and then logged again whole repeats its first id. */
  lemma RelogRepeats(log0: seq<LogLine>, found: seq<Review>, reached: nat)
    requires 0 < reached <= |found|
    ensures !NoDuplicates(LoggedIds(log0 + EncodeAll(found[..reached]) + EncodeAll(found)))
  {
    var log1 := log0 + EncodeAll(found[..reached]);
    LoggedIdsAppend(log1, EncodeAll(found));
    LoggedIdsAppend(log0, EncodeAll(found[..reached]));
    LoggedIdsEncodeAll(found);
    LoggedIdsEncodeAll(found[..reached]);
    var all := LoggedIds(log1 + EncodeAll(found));
    var first := |LoggedIds(log0)|;
    assert all == LoggedIds(log0) + IdsOf(found[..reached]) + IdsOf(found);
    assert all[first] == found[0].id && all[first + reached] == found[0].id;
  }

  /**
   * A log write that fails after some records reached the file leaves their ids
   * out of the seen list, so a retry over the same pages logs them again.
   */
  lemma LogFaultThenRetryDuplicates(app: AppConfig, now1: Time, now2: Time, pages: seq<PageResult>, n: nat,
                                    save1: bool, save2: bool, threshold: int, cooldown: int,
                                    b0: BreakerState, b1: BreakerState, b2: BreakerState,
                                    s0: StoreSnapshot, s1: StoreSnapshot, s2: StoreSnapshot,
                                    o1: PollOutcome, o2: PollOutcome)
    requires |pages| == MaxPages && n > 0
    requires IterationEffect(app, now1, pages, Some(n), save1, threshold, cooldown, b0, b1, s0, s1, o1)
    requires IterationEffect(app, now2, pages, None, save2, threshold, cooldown, b1, b2, s1, s2, o2)
    requires o1.Stored? && o2.Stored? && o1.appended != []
    ensures o2.appended == o1.appended
    ensures !NoDuplicates(LoggedIds(LogOf(s2.logs, StoreKey(app.appId, app.country))))
  {
    var k := StoreKey(app.appId, app.country);
    StoredIteration(app, now1, pages, Some(n), save1, threshold, cooldown, b0, b1, s0, s1, o1);
    StoredIteration(app, now2, pages, None, save2, threshold, cooldown, b1, b2, s1, s2, o2);
    var found := o1.appended;
    var reached := if n < |found| then n else |found|;
    assert found[..|found|] == found;
    RelogRepeats(LogOf(s0.logs, k), found, reached);
  }
}
