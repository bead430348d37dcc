/**
 * The scheduler (backend/internal/poller.go): the per-target re-entrancy flags,
 * the per-target breakers and one poll iteration (PollOnce). The worker
 * goroutines, the ticker and the mutex are not modelled: PollOnce is one
 * sequential call. What FetchPageWithRetry returns for each page is an input.
 */
module Poller {
  import opened Wrappers
  import opened Types
  import opened CircuitBreakers
  import opened Store
  import opened Feed
  import opened Decimal

  /** The page loop never asks for more than this many pages. */
  const MaxPages: nat := 10

  /** What FetchPageWithRetry returned for one page. */
  type PageResult = Result<seq<Review>, FetchError>

  function IdsOf(rs: seq<Review>): (ids: seq<string>)
    ensures |ids| == |rs| && forall i :: 0 <= i < |rs| ==> ids[i] == rs[i].id
  {
    seq(|rs|, i requires 0 <= i < |rs| => rs[i].id)
  }

  /** The reviews of a page whose ids are neither in `seen` nor earlier on the page, in page order. */
  function NewReviews(revs: seq<Review>, seen: set<string>): seq<Review>
  {
    if revs == [] then []
    else
      var earlier := NewReviews(revs[..|revs| - 1], seen);
      var r := revs[|revs| - 1];
      if r.id in seen || r.id in IdsOf(earlier) then earlier else earlier + [r]
  }

  /** Filtering reviews by id is the store's dedup on their ids: the same ids, in the same order. */
  lemma {:induction false} NewReviewsIds(revs: seq<Review>, seen: set<string>)
    ensures IdsOf(NewReviews(revs, seen)) == FreshIds(IdsOf(revs), seen)
    ensures forall r :: r in NewReviews(revs, seen) ==> r in revs
  {
    if revs != [] {
      var init := revs[..|revs| - 1];
      var r := revs[|revs| - 1];
      NewReviewsIds(init, seen);
      assert IdsOf(revs)[..|revs| - 1] == IdsOf(init);
      var earlier := NewReviews(init, seen);
      assert IdsOf(earlier + [r]) == IdsOf(earlier) + [r.id];
    }
  }

  /** How a poll iteration's page loop ended: pages requested, whether a page failed, the reviews to store. */
  datatype Iteration = Iteration(requested: nat, failed: bool, found: seq<Review>)

  /**
   * The page loop from page index `next` (page number next + 1) on, with the seen
   * set taken at the start of the iteration and the new reviews found so far. A
   * failed page ends the iteration; an empty page, a page with nothing new or
   * the last page ends the loop normally.
   */
  function ScanPages(pages: seq<PageResult>, next: nat, seen: set<string>, found: seq<Review>): (it: Iteration)
    requires next <= |pages|
    ensures next <= it.requested <= |pages|
    ensures it.failed ==> next < it.requested
    decreases |pages| - next
  {
    if next == |pages| then Iteration(next, false, found)
    else
      match pages[next]
      case Err(_) => Iteration(next + 1, true, found)
      case Ok(revs) =>
        if revs == [] then Iteration(next + 1, false, found)
        else
          var added := NewReviews(revs, seen + IdSet(IdsOf(found)));
          if added == [] then Iteration(next + 1, false, found)
          else ScanPages(pages, next + 1, seen, found + added)
  }

  /** Every page before the last one requested succeeded; the last one failed exactly when the iteration did. */
  predicate PagesInOrder(pages: seq<PageResult>, it: Iteration)
  {
    && 1 <= it.requested <= |pages|
    && (forall i :: 0 <= i < it.requested - 1 ==> pages[i].Ok?)
    && (it.failed <==> pages[it.requested - 1].Err?)
  }

  lemma {:induction false} ScanPagesFrom(pages: seq<PageResult>, next: nat, seen: set<string>, found: seq<Review>)
    requires next < |pages|
    requires forall i :: 0 <= i < next ==> pages[i].Ok?
    requires NoDuplicates(IdsOf(found)) && IdSet(IdsOf(found)) !! seen
    requires forall r :: r in found ==> exists i :: 0 <= i < next && pages[i].Ok? && r in pages[i].value
    ensures var it := ScanPages(pages, next, seen, found);
            && next < it.requested && PagesInOrder(pages, it)
            && |found| <= |it.found| && it.found[..|found|] == found
            && NoDuplicates(IdsOf(it.found)) && IdSet(IdsOf(it.found)) !! seen
            && forall r :: r in it.found ==>
                 exists i :: 0 <= i < it.requested && pages[i].Ok? && r in pages[i].value
    decreases |pages| - next
  {
    match pages[next]
    case Err(_) =>
    case Ok(revs) =>
      if revs != [] {
        var known := seen + IdSet(IdsOf(found));
        var added := NewReviews(revs, known);
        if added != [] && next + 1 < |pages| {
          var grown := found + added;
          NewReviewsIds(revs, known);
          FreshIdsSpec(IdsOf(revs), known);
          assert IdsOf(grown) == IdsOf(found) + IdsOf(added);
          NoDuplicatesAppend(IdsOf(found), IdsOf(added));
          forall r | r in grown
            ensures exists i :: 0 <= i < next + 1 && pages[i].Ok? && r in pages[i].value
          {
            if r !in found {
              assert r in added;
            }
          }
          ScanPagesFrom(pages, next + 1, seen, grown);
          assert grown[..|found|] == found;
        } else if added != [] {
          var grown := found + added;
          NewReviewsIds(revs, known);
          FreshIdsSpec(IdsOf(revs), known);
          assert IdsOf(grown) == IdsOf(found) + IdsOf(added);
          NoDuplicatesAppend(IdsOf(found), IdsOf(added));
          assert grown[..|found|] == found;
          forall r | r in grown
            ensures exists i :: 0 <= i < next + 1 && pages[i].Ok? && r in pages[i].value
          {
            if r !in found {
              assert r in added;
            }
          }
        }
      }
  }

  /** The ids on the pages before index n that were fetched. */
  function IdsBefore(pages: seq<PageResult>, n: nat): set<string>
    requires n <= |pages|
  {
    if n == 0 then {}
    else IdsBefore(pages, n - 1) + (if pages[n - 1].Ok? then IdSet(IdsOf(pages[n - 1].value)) else {})
  }

  lemma {:induction false} IdsBeforeHas(pages: seq<PageResult>, n: nat, i: nat, r: Review)
    requires i < n <= |pages| && pages[i].Ok? && r in pages[i].value
    ensures r.id in IdsBefore(pages, n)
  {
    if i == n - 1 {
      var k :| 0 <= k < |pages[i].value| && pages[i].value[k] == r;
      assert IdsOf(pages[i].value)[k] == r.id;
    } else {
      IdsBeforeHas(pages, n - 1, i, r);
    }
  }

  /** Each page in `pages[..n]` was fetched and brought an id seen neither before the iteration nor on an earlier page. */
  ghost predicate EachPageAdded(pages: seq<PageResult>, n: nat, seen: set<string>)
    requires n <= |pages|
  {
    forall i :: 0 <= i < n ==> pages[i].Ok? && exists r :: r in pages[i].value && r.id !in seen + IdsBefore(pages, i)
  }

  /**
   * Completeness and the stopping rule of an iteration: the ids found are
   * exactly the unseen ids of the fetched pages; every page before the last
   * one requested brought something new; and a loop that stopped early
   * without failing stopped on a page with nothing new (or no reviews).
   */
  ghost predicate ScanComplete(pages: seq<PageResult>, seen: set<string>, it: Iteration)
    requires 1 <= it.requested <= |pages|
  {
    && IdSet(IdsOf(it.found)) == IdsBefore(pages, it.requested) - seen
    && EachPageAdded(pages, it.requested - 1, seen)
    && (!it.failed && it.requested < |pages| ==> LastPageKnown(pages, it.requested - 1, seen))
  }

  /** The page loop from page index `next` on is complete and stops as PollOnce's page loop does. */
  lemma {:induction false} ScanPagesComplete(pages: seq<PageResult>, next: nat, seen: set<string>, found: seq<Review>)
    requires next < |pages|
    requires IdSet(IdsOf(found)) == IdsBefore(pages, next) - seen
    requires EachPageAdded(pages, next, seen)
    ensures ScanComplete(pages, seen, ScanPages(pages, next, seen, found))
    decreases |pages| - next
  {
    var known := seen + IdSet(IdsOf(found));
    if pages[next].Err? {
      ScanFails(pages, next, seen, found);
    } else if NewReviews(pages[next].value, known) == [] {
      ScanStops(pages, next, seen, found);
      ScanStopped(pages, next, seen, found);
    } else {
      ScanGrows(pages, next, seen, found);
      var grown := found + NewReviews(pages[next].value, known);
      if next + 1 < |pages| {
        ScanPagesComplete(pages, next + 1, seen, grown);
      } else {
        ScanEnds(pages, seen, grown);
      }
    }
  }

  /** A failed page ends the loop with what was found so far. */
  lemma ScanFails(pages: seq<PageResult>, next: nat, seen: set<string>, found: seq<Review>)
    requires next < |pages| && pages[next].Err?
    requires IdSet(IdsOf(found)) == IdsBefore(pages, next) - seen
    requires EachPageAdded(pages, next, seen)
    ensures ScanComplete(pages, seen, ScanPages(pages, next, seen, found))
  {
    assert ScanPages(pages, next, seen, found) == Iteration(next + 1, true, found);
    assert IdsBefore(pages, next + 1) == IdsBefore(pages, next);
  }

  /** The last page brought something new: the loop ends because no page is left. */
  lemma ScanEnds(pages: seq<PageResult>, seen: set<string>, grown: seq<Review>)
    requires pages != []
    requires IdSet(IdsOf(grown)) == IdsBefore(pages, |pages|) - seen
    requires EachPageAdded(pages, |pages|, seen)
    ensures ScanComplete(pages, seen, Iteration(|pages|, false, grown))
  {
  }

  /** Page `n` was fetched and every id on it was seen before the iteration or on an earlier page. */
  ghost predicate LastPageKnown(pages: seq<PageResult>, n: nat, seen: set<string>)
    requires n < |pages|
  {
    pages[n].Ok? && forall r :: r in pages[n].value ==> r.id in seen + IdsBefore(pages, n)
  }

  /** A fetched page with nothing new ends the loop, and every id on it was already known. */
  lemma ScanStops(pages: seq<PageResult>, next: nat, seen: set<string>, found: seq<Review>)
    requires next < |pages| && pages[next].Ok?
    requires IdSet(IdsOf(found)) == IdsBefore(pages, next) - seen
    requires NewReviews(pages[next].value, seen + IdSet(IdsOf(found))) == []
    ensures ScanPages(pages, next, seen, found) == Iteration(next + 1, false, found)
    ensures IdSet(IdsOf(found)) == IdsBefore(pages, next + 1) - seen
    ensures LastPageKnown(pages, next, seen)
  {
    var revs := pages[next].value;
    var known := seen + IdSet(IdsOf(found));
    assert known == seen + IdsBefore(pages, next);
    PageContribution(revs, known);
    assert IdsBefore(pages, next + 1) == IdsBefore(pages, next) + IdSet(IdsOf(revs));
  }

  /** The loop stopped after page `next` on a page with nothing new. */
  lemma ScanStopped(pages: seq<PageResult>, next: nat, seen: set<string>, found: seq<Review>)
    requires next < |pages|
    requires IdSet(IdsOf(found)) == IdsBefore(pages, next + 1) - seen
    requires EachPageAdded(pages, next, seen)
    requires LastPageKnown(pages, next, seen)
    ensures ScanComplete(pages, seen, Iteration(next + 1, false, found))
  {
  }

  /** A fetched page with something new adds exactly its unknown ids, and the loop goes on if pages remain. */
  lemma ScanGrows(pages: seq<PageResult>, next: nat, seen: set<string>, found: seq<Review>)
    requires next < |pages| && pages[next].Ok?
    requires IdSet(IdsOf(found)) == IdsBefore(pages, next) - seen
    requires EachPageAdded(pages, next, seen)
    requires NewReviews(pages[next].value, seen + IdSet(IdsOf(found))) != []
    ensures var grown := found + NewReviews(pages[next].value, seen + IdSet(IdsOf(found)));
            && ScanPages(pages, next, seen, found) ==
                 (if next + 1 < |pages| then ScanPages(pages, next + 1, seen, grown) else Iteration(next + 1, false, grown))
            && IdSet(IdsOf(grown)) == IdsBefore(pages, next + 1) - seen
            && EachPageAdded(pages, next + 1, seen)
  {
    var revs := pages[next].value;
    var known := seen + IdSet(IdsOf(found));
    assert known == seen + IdsBefore(pages, next);
    var added := NewReviews(revs, known);
    PageContribution(revs, known);
    assert revs != [];
    assert IdsBefore(pages, next + 1) == IdsBefore(pages, next) + IdSet(IdsOf(revs));
    var grown := found + added;
    assert IdsOf(grown) == IdsOf(found) + IdsOf(added);
    assert IdSet(IdsOf(grown)) == IdSet(IdsOf(found)) + IdSet(IdsOf(added));
    forall i | 0 <= i < next + 1
      ensures pages[i].Ok? && exists r :: r in pages[i].value && r.id !in seen + IdsBefore(pages, i)
    {
      if i == next {
        var r :| r in revs && r.id !in known;
        assert r in pages[i].value && r.id !in seen + IdsBefore(pages, i);
      }
    }
  }

  /** What one page adds to the known ids: exactly its unknown ids; nothing means every id on it was known. */
  lemma PageContribution(revs: seq<Review>, known: set<string>)
    ensures IdSet(IdsOf(NewReviews(revs, known))) == IdSet(IdsOf(revs)) - known
    ensures NewReviews(revs, known) != [] ==> exists r :: r in revs && r.id !in known
    ensures NewReviews(revs, known) == [] ==> forall r :: r in revs ==> r.id in known
  {
    var added := NewReviews(revs, known);
    NewReviewsIds(revs, known);
    FreshIdsSpec(IdsOf(revs), known);
    if added != [] {
      assert added[0] in revs && IdsOf(added)[0] == added[0].id;
      assert added[0].id in IdSet(IdsOf(added));
    } else {
      assert IdSet(IdsOf(added)) == {};
      forall r | r in revs
        ensures r.id in known
      {
        var k :| 0 <= k < |revs| && revs[k] == r;
        assert IdsOf(revs)[k] == r.id;
        assert r.id in IdSet(IdsOf(revs));
      }
    }
  }

  /** Every review on a fetched page of the iteration whose id was not seen before is among those found. */
  ghost predicate FoundAllUnseen(pages: seq<PageResult>, seen: set<string>, it: Iteration)
    requires it.requested <= |pages|
  {
    forall i, r :: 0 <= i < it.requested && pages[i].Ok? && r in pages[i].value && r.id !in seen ==>
      r.id in IdsOf(it.found)
  }

  /**
   * A whole page loop: at most MaxPages pages, requested in order from the first,
   * every page before the last requested one fetched; the reviews found have
   * distinct ids, none of them already seen, and each one comes from a page that
   * was fetched. Nothing is missed: every unseen review on a fetched page is
   * among those found. And the loop stops as PollOnce's page loop does (`ScanComplete`):
   * each page but the last brought something new, and a loop that ended early
   * without an error ended on a page whose every id was already known.
   */
  lemma ScanPagesSpec(pages: seq<PageResult>, seen: set<string>)
    requires |pages| == MaxPages
    ensures var it := ScanPages(pages, 0, seen, []);
            && PagesInOrder(pages, it) && it.requested <= MaxPages
            && NoDuplicates(IdsOf(it.found)) && IdSet(IdsOf(it.found)) !! seen
            && (forall r :: r in it.found ==>
                 exists i :: 0 <= i < it.requested && pages[i].Ok? && r in pages[i].value)
            && FoundAllUnseen(pages, seen, it)
            && ScanComplete(pages, seen, it)
  {
    ScanPagesFrom(pages, 0, seen, []);
    assert IdSet(IdsOf([])) == {};
    ScanPagesComplete(pages, 0, seen, []);
    var it := ScanPages(pages, 0, seen, []);
    forall i, r | 0 <= i < it.requested && pages[i].Ok? && r in pages[i].value && r.id !in seen
      ensures r.id in IdsOf(it.found)
    {
      IdsBeforeHas(pages, it.requested, i, r);
      assert r.id in IdSet(IdsOf(it.found));
    }
  }

  /**
   * Re-fetching only reviews already seen finds nothing, and the loop stops after
   * the first page unless that page fails.
   */
  lemma AllSeenFindsNothing(pages: seq<PageResult>, seen: set<string>)
    requires |pages| == MaxPages
    requires forall i, r :: 0 <= i < |pages| && pages[i].Ok? && r in pages[i].value ==> r.id in seen
    ensures ScanPages(pages, 0, seen, []).found == []
    ensures ScanPages(pages, 0, seen, []).requested == 1
  {
    match pages[0]
    case Err(_) =>
    case Ok(revs) =>
      if revs != [] {
        var known := seen + IdSet(IdsOf([]));
        NewReviewsIds(revs, known);
        FreshIdsSpec(IdsOf(revs), known);
        forall id | id in IdSet(IdsOf(revs))
          ensures id in known
        {
          var i :| 0 <= i < |revs| && IdsOf(revs)[i] == id;
          assert revs[i] in pages[0].value;
        }
        EmptyIdSet(FreshIds(IdsOf(revs), known));
        assert |NewReviews(revs, known)| == 0;
      }
  }

  /**
   * The scan of one fetched page in PollOnce: every review whose id is not in
   * `seen` yet is marked seen, counted and queued with its id.
   */
  method CollectNew(revs: seq<Review>, seen: set<string>, newIds: seq<string>, toAppend: seq<Review>, newTotal: int)
    returns (seen': set<string>, newIds': seq<string>, toAppend': seq<Review>, newTotal': int, pageNew: nat)
    requires newIds == IdsOf(toAppend)
    ensures toAppend' == toAppend + NewReviews(revs, seen)
    ensures newIds' == IdsOf(toAppend') == newIds + IdsOf(NewReviews(revs, seen))
    ensures seen' == seen + IdSet(IdsOf(NewReviews(revs, seen)))
    ensures pageNew == |NewReviews(revs, seen)| && newTotal' == newTotal + pageNew
  {
    seen', newIds', toAppend', newTotal', pageNew := seen, newIds, toAppend, newTotal, 0;
    for i := 0 to |revs|
      invariant toAppend' == toAppend + NewReviews(revs[..i], seen) && newIds' == IdsOf(toAppend')
      invariant seen' == seen + IdSet(IdsOf(NewReviews(revs[..i], seen)))
      invariant pageNew == |NewReviews(revs[..i], seen)| && newTotal' == newTotal + pageNew
    {
      assert revs[..i + 1][..i] == revs[..i];
      var r := revs[i];
      ghost var earlier := NewReviews(revs[..i], seen);
      if r.id in seen' {
        continue;
      }
      seen' := seen' + {r.id};
      pageNew := pageNew + 1;
      newTotal' := newTotal' + 1;
      newIds' := newIds' + [r.id];
      toAppend' := toAppend' + [r];
      assert IdsOf(earlier + [r]) == IdsOf(earlier) + [r.id];
    }
    assert revs[..|revs|] == revs;
  }

  // ------------------------------------------------------------ the manager

  /** How a call to PollOnce ended. */
  datatype PollOutcome =
    | Skipped                   // an iteration for the target was already running
    | BreakerOpen               // the breaker refused the iteration
    | Abandoned(page: nat)      // that page failed after its retries; nothing was stored
    | Stored(pages: nat, appended: seq<Review>, newIds: seq<string>, error: Option<StoreError>)

  /**
   * One iteration past the re-entrancy guard, as a relation between the target's
   * breaker and the store before and after it: the breaker gate, the page loop,
   * then a single store call, or none when a page failed.
   */
  ghost predicate IterationEffect(app: AppConfig, now: Time, pages: seq<PageResult>,
                                  logFault: Option<nat>, saveFails: bool, threshold: int, cooldown: int,
                                  before: BreakerState, after: BreakerState,
                                  store0: StoreSnapshot, store1: StoreSnapshot, outcome: PollOutcome)
    requires |pages| == MaxPages
    ensures IterationEffect(app, now, pages, logFault, saveFails, threshold, cooldown,
                            before, after, store0, store1, outcome) ==>
              && outcome != Skipped
              && (outcome == BreakerOpen <==> !AllowStep(before, now).0)
              && (outcome.BreakerOpen? || outcome.Abandoned? ==> store1 == store0)
              && (outcome.Abandoned? ==> 1 <= outcome.page <= MaxPages && pages[outcome.page - 1].Err?)
              && (outcome.Stored? ==> outcome.newIds == IdsOf(outcome.appended) && 1 <= outcome.pages <= MaxPages)
  {
    var k := StoreKey(app.appId, app.country);
    var (allowed, trial) := AllowStep(before, now);
    if !allowed then
      outcome == BreakerOpen && after == trial && store1 == store0
    else
      var it := ScanPages(pages, 0, IdSet(SeenOf(store0.entries, k)), []);
      ScanPagesSpec(pages, IdSet(SeenOf(store0.entries, k)));
      if it.failed then
        && outcome == Abandoned(it.requested)
        && after == FailureStep(Successes(trial, it.requested - 1), threshold, cooldown, now)
        && store1 == store0
      else
        var (s, err) := AppendEffect(store0, k, it.found, IdsOf(it.found), now, logFault, saveFails);
        && outcome == Stored(it.requested, it.found, IdsOf(it.found), err)
        && after == Successes(trial, it.requested)
        && store1 == s
  }

  /**
   * The breaker cooldown of a configuration: `time.Duration(seconds) * time.Second`,
   * a product in int64 nanoseconds that wraps for very large settings.
   */
  function CooldownOf(cfg: Config): (d: int)
    ensures MinInt64 <= d <= MaxInt64
    ensures 0 < cfg.circuitBreaker.openCooldownSeconds <= MaxInt64 / Second ==>
              d == cfg.circuitBreaker.openCooldownSeconds * Second && d > 0
  {
    Wrap64(cfg.circuitBreaker.openCooldownSeconds * Second)
  }

  /** The scheduler's registry: one re-entrancy flag and one breaker per target key. */
  class Manager {
    const cfg: Config
    const store: FileStore
    var running: map<string, bool>
    var breakers: map<string, CircuitBreaker>

    /** A breaker built from the configured threshold and cooldown. */
    predicate Configured(b: CircuitBreaker)
    {
      && b.failureThreshold == cfg.circuitBreaker.failureThreshold
      && b.openCooldown == CooldownOf(cfg)
    }

    ghost predicate Valid()
      reads this
    {
      forall k :: k in breakers ==> Configured(breakers[k])
    }

    /** NewManager: no target running, no breaker yet. */
    constructor (cfg: Config, store: FileStore)
      ensures this.cfg == cfg && this.store == store
      ensures running == map[] && breakers == map[] && Valid()
    {
      this.cfg := cfg;
      this.store := store;
      running := map[];
      breakers := map[];
    }

    /** The configured targets. */
    function Apps(): seq<AppConfig>
    {
      cfg.apps
    }

    /** `breakerForUnsafe`: the target's breaker, created closed from the configuration on first use and reused afterwards. */
    method BreakerFor(app: AppConfig) returns (cb: CircuitBreaker)
      requires Valid()
      modifies this
      ensures Valid() && running == old(running)
      ensures var k := StoreKey(app.appId, app.country);
              && k in breakers && breakers[k] == cb && Configured(cb)
              && (k in old(breakers) ==> breakers == old(breakers))
              && (k !in old(breakers) ==>
                    fresh(cb) && cb.View() == BreakerState(Closed, 0, ZeroTime) && breakers == old(breakers)[k := cb])
    {
      var k := StoreKey(app.appId, app.country);
      if k in breakers {
        return breakers[k];
      }
      cb := new CircuitBreaker(cfg.circuitBreaker.failureThreshold, CooldownOf(cfg));
      breakers := breakers[k := cb];
    }

    /**
     * PollOnce: skipped when an iteration for the target is already running;
     * otherwise the flag is raised for the iteration and lowered on every way out.
     */
    method PollOnce(app: AppConfig, now: Time, pages: seq<PageResult>, logFault: Option<nat>, saveFails: bool)
      returns (outcome: PollOutcome)
      requires Valid() && |pages| == MaxPages
      modifies this, store, breakers.Values
      ensures Valid()
      ensures var k := StoreKey(app.appId, app.country);
              old(k in running && running[k]) ==>
                && outcome == Skipped && running == old(running) && breakers == old(breakers)
                && unchanged(store) && forall b :: b in old(breakers.Values) ==> unchanged(b)
      ensures var k := StoreKey(app.appId, app.country);
              !old(k in running && running[k]) ==>
                && running == old(running)[k := false]
                && k in breakers
                && (k in old(breakers) ==> breakers == old(breakers))
                && (k !in old(breakers) ==> fresh(breakers[k]) && breakers == old(breakers)[k := breakers[k]])
                && (forall b :: b in old(breakers.Values) && b != breakers[k] ==> unchanged(b))
                && IterationEffect(app, now, pages, logFault, saveFails,
                                   cfg.circuitBreaker.failureThreshold, CooldownOf(cfg),
                                   if k in old(breakers) then old(breakers[k].View()) else BreakerState(Closed, 0, ZeroTime),
                                   breakers[k].View(), old(store.Snapshot()), store.Snapshot(), outcome)
    {
      var k := StoreKey(app.appId, app.country);
      if k in running && running[k] {
        return Skipped;
      }
      running := running[k := true];
      var cb := BreakerFor(app);
      ghost var before := cb.View();
      assert k in old(breakers) ==> cb in old(breakers.Values);
      outcome := Iterate(cb, app, now, pages, logFault, saveFails);
      assert IterationEffect(app, now, pages, logFault, saveFails, cb.failureThreshold, cb.openCooldown,
                             before, cb.View(), old(store.Snapshot()), store.Snapshot(), outcome);
      // deferred: the flag is lowered whatever the iteration did
      running := running[k := false];
    }

    /** The body of PollOnce after the re-entrancy guard, with the target's breaker. */
    method Iterate(cb: CircuitBreaker, app: AppConfig, now: Time, pages: seq<PageResult>,
                   logFault: Option<nat>, saveFails: bool)
      returns (outcome: PollOutcome)
      requires |pages| == MaxPages
      modifies cb, store
      ensures IterationEffect(app, now, pages, logFault, saveFails, cb.failureThreshold, cb.openCooldown,
                              old(cb.View()), cb.View(), old(store.Snapshot()), store.Snapshot(), outcome)
    {
      var k := StoreKey(app.appId, app.country);
      var allowed := cb.Allow(now);
      if !allowed {
        return BreakerOpen;
      }
      var seen := store.GetSeenSet(app.appId, app.country);
      assert seen == IdSet(SeenOf(store.entries, k));
      var requested, failed, toAppend, newIds := PageLoop(cb, now, pages, seen);
      if failed {
        return Abandoned(requested);
      }
      var err;
      if |toAppend| > 0 {
        err := store.AppendReviews(app.appId, app.country, toAppend, newIds, now, logFault, saveFails);
      } else {
        // nothing new: the call only records the poll
        err := store.AppendReviews(app.appId, app.country, [], [], now, logFault, saveFails);
      }
      return Stored(requested, toAppend, newIds, err);
    }
  }

  /**
   * The page loop of PollOnce: pages 1, 2, ... up to MaxPages, each reported to
   * the breaker; a failed page reports a failure and ends the iteration.
   */
  method PageLoop(cb: CircuitBreaker, now: Time, pages: seq<PageResult>, seen0: set<string>)
    returns (requested: nat, failed: bool, toAppend: seq<Review>, newIds: seq<string>)
    requires |pages| == MaxPages
    modifies cb
    ensures Iteration(requested, failed, toAppend) == ScanPages(pages, 0, seen0, [])
    ensures newIds == IdsOf(toAppend)
    ensures cb.View() == if failed then FailureStep(Successes(old(cb.View()), requested - 1), cb.failureThreshold, cb.openCooldown, now)
                         else Successes(old(cb.View()), requested)
  {
    var seen := seen0;
    var newTotal := 0;
    newIds, toAppend := [], [];
    var page := 1;
    while page <= MaxPages
      invariant 1 <= page <= MaxPages + 1
      invariant seen == seen0 + IdSet(newIds)
      invariant newIds == IdsOf(toAppend) && newTotal == |toAppend|
      invariant ScanPages(pages, page - 1, seen0, toAppend) == ScanPages(pages, 0, seen0, [])
      invariant cb.View() == Successes(old(cb.View()), page - 1)
    {
      var res := pages[page - 1];
      if res.Err? {
        // the iteration fails: report it and keep nothing
        cb.Failure(now);
        return page, true, toAppend, newIds;
      }
      cb.Success();
      var revs := res.value;
      if |revs| == 0 {
        break;
      }
      var pageNew;
      ghost var newIds0 := newIds;
      seen, newIds, toAppend, newTotal, pageNew := CollectNew(revs, seen, newIds, toAppend, newTotal);
      assert IdSet(newIds) == IdSet(newIds0) + IdSet(newIds[|newIds0|..]) by {
        assert newIds == newIds0 + newIds[|newIds0|..];
      }
      // no new review on this page: the older pages hold nothing new either
      if pageNew == 0 {
        break;
      }
      page := page + 1;
    }
    requested := if page > MaxPages then MaxPages else page;
    failed := false;
  }
}
