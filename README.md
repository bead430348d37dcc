# iOS recent-reviews backend: a Dafny model of the ingestion core

The backend polls the store's paginated customer-review feed for a configured list of (application, country) targets. For each target it:

- keeps one circuit breaker that stops polling a failing feed;
- fetches pages with bounded retries and an alert once the retries are used up;
- drops reviews whose ids were already ingested;
- appends the new reviews to an append-only log per target;
- records the ingested ids and the last-poll instant in a state document;
- serves the reviews of a recent window over HTTP.

This project models that core in Dafny and proves its contracts. There is one module per Go file:

| module | file | form |
|---|---|---|
| `CircuitBreakers` | `circuit_breaker.dfy` | class `CircuitBreaker`, tied to pure step functions |
| `Store` | `store.dfy` | class `FileStore`, specified by `AppendEffect`, `FreshIds`/`MergeIds`, `Recent` and `NewestFirst`; the result sort is in place on an array |
| `Poller` | `poller.dfy` | class `Manager` (the `running` and `breakers` maps, `PollOnce`), specified by `ScanPages` and `IterationEffect` |
| `Feed` | `feed.dfy` | entry conversion, `atoiSafe`, error classes, the retry loop |
| `Types` | `types.dfy` | the records and `ParseConfig` |
| `Api` | `api.dfy` | the parameter checks and the `hours` clamp of `/poll` and `/reviews` |

Supporting modules:

- `Decimal` (`decimal.dfy`): decimal text, `strconv.Atoi`, `%d` and 64-bit wrap-around.
- `Wrappers` (`wrappers.dfy`): `Option` and `Result`.
- `Dedup` (`dedup.dfy`): the no-duplicates guarantee over whole poll iterations.

Modelling choices:

- Time is an integer count of nanoseconds. `ZeroTime` (0) plays Go's zero `time.Time`.
- Every clock read becomes a parameter `now`. The HTTP responses, the decoded JSON entries, the two `time.Parse` layouts, the jitter and the context cancellation become parameters too.
- File-system failures become explicit inputs:
  - `logFault`: how many records reached the log before writing failed;
  - `saveFails`: replacing the state file fails;
  - `readFault`: the log scanner fails.
- A poll iteration receives the results of `FetchPageWithRetry` for pages 1..10 as `pages`. The loop reads only as many of them as the Go loop would request.

Three behaviours of the code are easy to misread; the model follows the code:

- `atoiSafe` can return a negative value. The Go fold runs in 64-bit `int`, so nineteen or more digits can wrap. `Feed.AtoiSafe` models the wrap with `Wrap64`. `Feed.AtoiSafeSmall` proves the result is the non-negative decimal value for up to 18 digits. `Feed.AtoiSafeReadsDecimal` shows that 2^63 wraps to the int64 minimum.
- The "no id twice in the log" guarantee holds only when the log write succeeds. `AppendReviews` writes the log before it merges the ids. A write that fails after some records reached the file therefore leaves those ids unseen, and the next successful poll of the same pages logs them again.
  - `Dedup.IterationKeepsDedup` proves that the guarantee survives every iteration whose log write succeeds.
  - `Dedup.LogFaultThenRetryDuplicates` proves that it fails after a partial write followed by a retry.
  - A failed state save has a similar effect across a restart. The merged ids stay in memory (`Store.AppendEffect` keeps them in `entries`), but the file on disk (`persisted`) keeps the old list. A process that restarts then loads the old list, and its next poll logs those reviews again.
- The retry comment lists a 2s wait, but with three attempts only the 500ms and 1s waits happen (`Feed.FetchPageWithRetry`, `Feed.Backoff`).

## Model

| member | source | states |
|---|---|---|
| CircuitBreakers.AllowStep | backend/internal/circuit_breaker.go:35-55 | Closed and HalfOpen let the call through with no change. Open lets it through exactly when `now` is strictly after `openUntil`, and then becomes HalfOpen. The counter and deadline never change. |
| CircuitBreakers.SuccessStep | backend/internal/circuit_breaker.go:58-65 | The counter becomes 0 and the deadline is kept. HalfOpen closes, Closed stays Closed, Open stays Open. |
| CircuitBreakers.FailureStep | backend/internal/circuit_breaker.go:68-87 | Closed: the counter goes up by one, and the breaker opens until `now + cooldown` exactly when the new count reaches the threshold. HalfOpen: reopens with a fresh deadline and the counter set to the threshold. Open: only the counter moves. |
| CircuitBreakers.FailuresBelowThreshold | backend/internal/circuit_breaker.go:72-78 | A closed breaker whose count stays below the threshold over a run of failures stays closed and only counts. |
| CircuitBreakers.ThresholdOpens | backend/internal/circuit_breaker.go:72-78 | From a new breaker, `threshold` consecutive failures open it until the last failure's instant plus the cooldown. One fewer failure leaves it closed with `threshold - 1` failures. |
| CircuitBreakers.SuccessesCollapse | backend/internal/circuit_breaker.go:58-65 | Any positive number of consecutive successes acts like one. |
| CircuitBreakers.BreakerLaw | backend/internal/circuit_breaker.go:35-87 | After tripping, every call up to and including the deadline is refused. The first call after it half-opens the breaker. From there a success closes it and a failure reopens it with a fresh deadline. |
| CircuitBreakers.CircuitBreaker.constructor | backend/internal/circuit_breaker.go:26-32 | A new breaker is Closed with no failures and keeps the given threshold and cooldown. |
| CircuitBreakers.CircuitBreaker.Allow | backend/internal/circuit_breaker.go:35-55 | The answer and the new fields are those of `AllowStep` on the old fields. |
| CircuitBreakers.CircuitBreaker.Success | backend/internal/circuit_breaker.go:58-65 | The new fields are `SuccessStep` of the old ones. |
| CircuitBreakers.CircuitBreaker.Failure | backend/internal/circuit_breaker.go:68-87 | The new fields are `FailureStep` of the old ones, with the breaker's own threshold and cooldown. |
| CircuitBreakers.CircuitBreaker.StateName | backend/internal/circuit_breaker.go:90-103 | "closed", "open" and "half_open" name exactly the three states. |
| Store.StoreKey | backend/internal/store.go:39 | The key is the application id, a dash, then the country. |
| Store.StoreKeyCollides | backend/internal/store.go:39 | The key is not injective: ("a-b", "c") and ("a", "b-c") share a key. |
| Store.EncodeAll | backend/internal/store.go:103-109 | One log line per review, in order, each reading back as its review. |
| Store.FreshIdsSpec | backend/internal/store.go:127-137 | The ids the merge adds have no duplicates and are exactly the incoming ids not already seen. |
| Store.MergeIds | backend/internal/store.go:127-137 | The old seen list is a prefix of the merged one. |
| Store.MergeIdsSpec | backend/internal/store.go:127-137 | The merged list holds exactly the old and the new ids. A duplicate-free list stays duplicate-free even when the new ids repeat. |
| Store.MergeIdsIdempotent | backend/internal/store.go:132-137 | New ids that are all already present change nothing, and merging the same ids twice equals merging them once. |
| Store.RecentMembers | backend/internal/store.go:155-166 | A review is in the filtered scan exactly when its line decodes to it and it was submitted at or after the cutoff. The bound is inclusive and undecodable lines are skipped. |
| Store.ScanRecent | backend/internal/store.go:155-166 | The scan loop keeps, in file order, every line that decodes to a review submitted at or after the cutoff. |
| Store.PermutationKeepsMembers | backend/internal/store.go:155-173 | Any reordering of the filtered scan holds exactly the decodable reviews at or after the cutoff. |
| Store.SortNewestFirst | backend/internal/store.go:170-173 | In place, the array ends sorted newest first and is a permutation of its old contents. |
| Store.InsertNewest | backend/internal/store.go:170-173 | One insertion step extends the newest-first prefix by one element and keeps the multiset. |
| Store.LoadState | backend/internal/store.go:23-37 | A state file that cannot be opened gives an empty state. An undecodable one is an error. A document without entries gives an empty map. |
| Store.AppendEffect | backend/internal/store.go:95-140 | The log gains one line per review that reached the file. A log write failure stops there and leaves the state untouched. Otherwise only this key's entry changes: the merged seen list and `now` as last poll. The state file is replaced unless saving fails. |
| Store.FileStore.constructor | backend/internal/store.go:23-37 | The store starts from the loaded state, which is also what is on disk, and from the existing log files. |
| Store.FileStore.GetSeenSet | backend/internal/store.go:82-93 | Exactly the ids in the key's seen list, or none for a key never polled. Nothing is changed. |
| Store.FileStore.AppendReviews | backend/internal/store.go:95-140 | The new store and the error are those of `AppendEffect` on the old store. |
| Store.FileStore.ReadRecent | backend/internal/store.go:142-176 | No log file gives an empty list and a scanner error gives an error. Otherwise the result is sorted newest first, is a permutation of the reviews logged at or after `now - horizon`, and holds exactly those reviews. |
| Store.FileStore.LastPoll | backend/internal/store.go:178-186 | A value is present exactly when the key has an entry with a non-zero last poll, and it is that instant. |
| Feed.DigitsOf | backend/internal/feed.go:115-118 | The filtered text consists only of digits and is no longer than the input. Text made only of digits passes unchanged, and text with no digit gives nothing. With `DigitsOfAppend`, this fixes the filter: each digit is kept in order and every other character is dropped. |
| Feed.DigitsOfAppend | backend/internal/feed.go:115-118 | The filter works piece by piece: the digits of a concatenation are the digits of the first part followed by those of the second. |
| Feed.AtoiSafe | backend/internal/feed.go:113-121 | The result is the value of the string's digits, in order, wrapped to int64 as Go's `int` arithmetic does. |
| Feed.AtoiSafeSmall | backend/internal/feed.go:113-121 | With at most 18 digits there is no wrap: the result is the non-negative decimal value. A string with no digit at all gives 0. |
| Feed.AtoiSafeReadsDecimal | backend/internal/feed.go:113-121 | Printed decimals pass the filter unchanged and read back up to the int64 maximum. 2^63 wraps to the minimum. |
| Feed.EntryTime | backend/internal/feed.go:90-97 | The RFC 3339 reading, else the fixed-layout reading, else `now`. |
| Feed.Convert | backend/internal/feed.go:84-110 | One review per rated entry, never more than the entries. The application and country come from the request, and every review is the conversion of a rated entry. |
| Feed.Rated | backend/internal/feed.go:86-89 | The entries that carry a rating: as many as `CountReviews` counts, and exactly the rated entries of the input. |
| Feed.ConvertInOrder | backend/internal/feed.go:84-110 | Every rated entry is converted, in order: the i-th review is the conversion of the i-th rated entry, and there are as many reviews as rated entries. |
| Feed.ConvertAppend | backend/internal/feed.go:86-109 | Converting two runs of entries one after the other gives the reviews of the first run followed by those of the second. |
| Feed.ConvertEntries | backend/internal/feed.go:84-110 | The loop produces the reviews `Convert` specifies. |
| Feed.FeedUrl | backend/internal/feed.go:54-56 | The URL is the feed's base for the country and application, then the page number in decimal, then "/json". |
| Feed.FeedUrlPage | backend/internal/feed.go:54-56 | The page number reads back from the URL, so two pages of one target never share a URL. |
| Feed.Truncate | backend/internal/feed.go:75 | At most `limit` bytes, and a prefix of the body. A body within the limit is kept whole. |
| Feed.PageOnce | backend/internal/feed.go:59-111 | A failed request is a transport error, with its timeout flag. A non-200 status is an HTTP error with that status, the page's URL, and at most the first 2048 bytes of the body. A 200 body that does not decode is a malformed-body error, which is a timeout exactly when the read timed out. Success happens exactly when the status is 200 and the body decodes. The reviews are then the conversion of the entries. |
| Feed.FetchPageOnce | backend/internal/feed.go:59-111 | The method's result, built with the conversion loop, is the one `PageOnce` specifies. |
| Feed.IsTimeout | backend/internal/feed.go:125-130 | HTTP errors are never timeouts. A transport error or a malformed body is a timeout exactly when it reports one. An interrupted wait is a timeout exactly when its cause is the deadline. |
| Feed.ErrorType | backend/internal/feed.go:132-142 | "http_status_" followed by the status for HTTP errors, "network_timeout" for timeouts, "network_error" otherwise. |
| Feed.ErrorTypeClasses | backend/internal/feed.go:132-142 | Only HTTP errors get the "http_status_" prefix, and the digits after it read back as the status. |
| Feed.Backoff | backend/internal/feed.go:163 | The first wait is 500ms and the second is 1s. |
| Feed.FetchPageWithRetry | backend/internal/feed.go:145-176 | At most three attempts, and the first success is returned. Each attempt before the last failed and was not interrupted. Wait i is `Backoff(i)` plus its jitter. An interrupted wait returns the context error without an alert. After three failures, exactly one alert is sent, for `appId-country` with the class of the last error, and that error is returned. |
| Poller.NewReviewsIds | backend/internal/poller.go:139-150 | The ids of the reviews a page adds are the store's dedup of the page's ids, and each added review is on the page. |
| Poller.ScanPages | backend/internal/poller.go:119-159 | The loop never requests beyond the last page, and a failure is on a page it requested. |
| Poller.ScanPagesFrom | backend/internal/poller.go:119-159 | From any page on, the pages requested before the last one succeeded, the last one failed exactly when the iteration did, and the reviews found keep distinct unseen ids, each from a fetched page. |
| Poller.PageContribution | backend/internal/poller.go:139-150 | A page adds exactly its ids that were not yet known. It adds something exactly when one of its ids is unknown. |
| Poller.ScanStops | backend/internal/poller.go:152-155 | A fetched page with nothing new ends the loop after that page, and every id on it was already known. |
| Poller.ScanGrows | backend/internal/poller.go:139-159 | A fetched page with something new adds its unknown ids, and the loop goes on to the next page if one is left. |
| Poller.ScanPagesComplete | backend/internal/poller.go:119-159 | From any page on, the ids found are exactly the unseen ids of the fetched pages. Every page before the last one requested brought a new id. A loop that ended early without an error ended on a fetched page whose ids were all known. |
| Poller.ScanPagesSpec | backend/internal/poller.go:119-159 | Pages are requested in order from 1 to at most 10, and all but the last succeeded. The new ids are duplicate-free and disjoint from the seen set at the start, and each review comes from a fetched page. Every unseen review on a fetched page is found. Every page but the last brought a new id, and a loop that ended early without an error ended on a fetched page whose ids were all known. |
| Poller.AllSeenFindsNothing | backend/internal/poller.go:135-155 | When every fetched review is already seen, nothing is found and only page 1 is requested. |
| Poller.CollectNew | backend/internal/poller.go:139-150 | The page's new reviews are queued in page order with their ids. They are marked seen, and `pageNew` and `newTotal` count them. |
| Poller.PageLoop | backend/internal/poller.go:119-159 | Pages requested, failure and found reviews are those of `ScanPages`, and `newIDs` are the found reviews' ids. The breaker took one success per fetched page, then one failure if the last page failed. |
| Poller.IterationEffect | backend/internal/poller.go:108-172 | An iteration is never reported as skipped. It is refused exactly when the breaker refuses it. A refused or failed iteration leaves the store unchanged. An abandoned iteration names a page in 1..10 whose fetch failed. A stored iteration passes the found reviews' own ids. |
| Poller.CooldownOf | backend/internal/poller.go:48-51 | The cooldown is the configured seconds times one second, wrapped into int64 as Go's `time.Duration` multiplication does. It is exact and positive when the product fits. |
| Poller.Manager.constructor | backend/internal/poller.go:23-33 | No target is running and no breaker exists yet. |
| Poller.Manager.BreakerFor | backend/internal/poller.go:43-54 | The first call for a key creates a closed breaker with the configured threshold and the wrapped cooldown `CooldownOf`. Later calls return that same breaker and change nothing. |
| Poller.Manager.PollOnce | backend/internal/poller.go:91-172 | With the key running: nothing changes. Otherwise the flag is cleared on the way out, other targets' breakers are untouched, and the breaker and store change as `IterationEffect` states: an open breaker means no store call, a failed page means one failure and no store call, otherwise exactly one append of the found reviews and their ids. |
| Poller.Manager.Iterate | backend/internal/poller.go:108-172 | The breaker and store change as `IterationEffect` states for the breaker's threshold and cooldown. |
| Dedup.IterationKeepsDedup | backend/internal/store.go:95-140 | An iteration whose log write succeeds keeps the target free of duplicates: no id twice in the seen list, no review twice in the log, every logged id seen. |
| Dedup.AppendKeepsDedup | backend/internal/store.go:95-140 | Appending reviews whose ids are distinct and unseen, with the log write succeeding, keeps the target free of duplicates. |
| Dedup.StoredIteration | backend/internal/poller.go:161-171 | An iteration that reached the store appended exactly the scan's reviews, up to the point of a log failure. After a log failure the seen lists are unchanged. |
| Dedup.RelogRepeats | backend/internal/store.go:103-116 | Logging part of a batch and then the whole batch again puts the first id in the log twice. |
| Dedup.LogFaultThenRetryDuplicates | backend/internal/store.go:103-116 | A log write that fails after some records, followed by a successful poll of the same pages, appends the same reviews again and leaves a duplicate id in the log. |
| Types.Normalize | backend/internal/types.go:31-39 | Non-positive poll interval, threshold and cooldown become 15, 3 and 60. Positive values, the webhook URL and the targets are kept. |
| Types.ParseConfig | backend/internal/types.go:26-41 | A decode error is passed on with no configuration. Otherwise the defaults are applied and every numeric setting is positive. |
| Types.NormalizeIdempotent | backend/internal/types.go:26-41 | Applying the defaults twice equals applying them once, and a configuration whose settings are all positive is left as it is. |
| Decimal.Atoi | backend/internal/api.go:39 | A successful `strconv.Atoi` reading lies in the int64 range and starts with a digit or a sign. |
| Decimal.AtoiFormatInt | backend/internal/api.go:39 | Every int64 value printed in decimal reads back as itself. |
| Decimal.Wrap64 | backend/internal/feed.go:117 | The result lies in the int64 range, differs from the argument by a multiple of 2^64, and equals the argument when the argument is already in range. |
| Api.PollReply | backend/internal/api.go:20-29 | A missing `appId` or `country` gives 400 with the fixed message and no dispatch. Otherwise the reply is 202 and a poll of exactly that target is dispatched. |
| Api.Hours | backend/internal/api.go:37-42 | The window always lies in 1..2160. It is 48 when absent, the parsed value when that is in 1..2160, and any other value than 48 is the parsed one. |
| Api.HoursRoundTrip | backend/internal/api.go:37-42 | Every admitted window read from its own decimal text comes back unchanged. |
| Api.HoursFallback | backend/internal/api.go:37-42 | Text that does not parse, and values outside 1..2160, give the default 48. |
| Api.ParseReviewsQuery | backend/internal/api.go:30-42 | A missing parameter gives 400 and no store read. Otherwise the query names exactly that target and a window in 1..2160. |
| Api.ReviewsReply | backend/internal/api.go:43-57 | A read error gives 500 with "internal error". Otherwise the reply carries the reviews, their count, `to = now` and `from` the window's length in hours before it. |
| Api.ReviewsHandler | backend/internal/api.go:30-58 | A missing parameter gives 400. Otherwise the reply is `ReviewsReply` for that target and window. |
| Api.ReviewsReplyListsWindow | backend/internal/api.go:43-57 | Over a store read that met its contract, the reply lists exactly the target's logged reviews of the window, newest first, and its count is their number. |

## Left out

- Concurrency: `Manager.worker`, `Start` and `Stop` (goroutines, the ticker, the `WaitGroup`, context cancellation of the workers) are not modelled. `PollOnce` is a sequential method, and every mutex is a no-op.
- The `/poll` handler runs `PollOnce` in a goroutine. `Api.PollReply` only returns the target it dispatches.
- HTTP, JSON and files are inputs. The request and the JSON decoding of a feed page are a `Response`. The state file is a ghost snapshot. A log file is a sequence of lines, with `Corrupt` standing for a line that does not decode. `ReviewsFilePath`'s directory layout is not modelled.
- `SaveState` writes a temporary file and renames it. Only its outcome is modelled: the snapshot is replaced, or it is left alone on failure.
- `time.Parse` for the two layouts is a pair of partial functions passed in. The RFC 3339 text of `from` and `to` in the `/reviews` reply is not modelled; the reply carries the instants.
- The jitter is an input in [0, 200ms). The 300ms pause between pages is left out because it has no effect on state.
- Poller.Manager.PollOnce: one instant `now` stands for every clock read of an iteration. The breaker's deadlines, the last-poll time and the conversion fallback time therefore share it.
- Api.ReviewsReply: the Go handler reads the clock after the store read. The model uses one `now` for both.
- The webhook POST is the `Alert` value, which carries `NotifyWebhook`'s arguments. `NotifyWebhook` itself (backend/internal/webhook.go) is not part of this model: it skips an empty URL and posts best-effort.
- The per-page 15s context and the client's 10s timeout are not modelled as clocks. Their expiry shows up as the timeout flag of a transport error, as the timeout flag of a body read that the decoder passes on (`Malformed`), or as an interrupted wait.
- A failing `http.NewRequest` is not told apart from a failed request: both are a `NoResponse` that is not a timeout, which gives the same error class.
- The breaker's deadline `now + cooldown` is an unbounded sum. Go's `time.Time.Add` works on its own wider representation of instants, and the model does not bound it.
- Store.AppendEffect: a log write failure is modelled at record boundaries. The buffered writer can fail inside a record and leave a last line with no newline. The next append's first record would then join that line. The joined line does not decode, so `ReadRecent` never lists that review, although its id is marked seen. This case is not modelled. A failing `os.OpenFile` is modelled as a write failure after zero records. That gives the key an empty log where Go creates no file; both read back as no reviews.
- `NewFileStore`'s distinction between a missing state file and other open errors is simplified. Every open failure gives an empty state, as the `os.PathError` test accepts all of them.
- `Manager.Apps` returns the configured targets unchanged and needs no contract.
- The frontend and `backend/cmd/server/main.go` are not part of this model.
