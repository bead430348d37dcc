/**
 * The feed fetcher (backend/internal/feed.go): one page of the store's review
 * feed turned into reviews, the error classification used for alerts, and the
 * retrying fetch. The HTTP exchange and the JSON decoding are inputs (a
 * `Response`); `time.Parse` for the two timestamp layouts is a pair of partial
 * functions; the clock reading, the jitter and the cancellation signal are inputs.
 */
module Feed {
  import opened Wrappers
  import opened Types
  import opened Decimal

  // ------------------------------------------------------------- atoiSafe

  /** The digits of s, in order, with every other character dropped. */
  function DigitsOf(s: string): (d: string)
    ensures AllDigits(d) && |d| <= |s|
    ensures AllDigits(s) ==> d == s
    ensures (forall i :: 0 <= i < |s| ==> !IsDigit(s[i])) ==> d == []
  {
    if s == [] then []
    else
      assert s == s[..|s| - 1] + [s[|s| - 1]];
      if IsDigit(s[|s| - 1]) then DigitsOf(s[..|s| - 1]) + [s[|s| - 1]]
      else DigitsOf(s[..|s| - 1])
  }

  /** The filter works piece by piece: the digits of a concatenation are the digits of each part, in order. */
  lemma {:induction false} DigitsOfAppend(a: string, b: string)
    ensures DigitsOf(a + b) == DigitsOf(a) + DigitsOf(b)
    decreases |b|
  {
    if b == [] {
      assert a + b == a;
    } else {
      var init := b[..|b| - 1];
      assert (a + b)[..|a + b| - 1] == a + init;
      assert (a + b)[|a + b| - 1] == b[|b| - 1];
      DigitsOfAppend(a, init);
    }
  }

  /**
   * `atoiSafe`: folds the decimal digits of s into a Go `int`, ignoring every other
   * character. The fold runs in 64-bit arithmetic, so the result is the digits'
   * value wrapped into the int64 range.
   */
  method AtoiSafe(s: string) returns (n: int)
    ensures n == Wrap64(Value(DigitsOf(s)))
  {
    n := 0;
    for i := 0 to |s|
      invariant n == Wrap64(Value(DigitsOf(s[..i])))
    {
      assert s[..i + 1][..i] == s[..i];
      if '0' <= s[i] <= '9' {
        var d := DigitsOf(s[..i]);
        assert (d + [s[i]])[..|d|] == d;
        WrapStep(Value(d), DigitValue(s[i]));
        n := Wrap64(n * 10 + (s[i] as int - '0' as int));
      }
    }
    assert s[..|s|] == s;
  }

  /**
   * atoiSafe is a non-negative base-10 reading whenever there are at most 18 digits
   * (a rating stamp has one): "" and digit-free strings give 0. Longer digit runs
   * can wrap past the int64 maximum: nineteen digits may give a negative value.
   */
  lemma AtoiSafeSmall(s: string)
    requires |DigitsOf(s)| <= 18
    ensures Wrap64(Value(DigitsOf(s))) == Value(DigitsOf(s)) >= 0
    ensures (forall i :: 0 <= i < |s| ==> !IsDigit(s[i])) ==> Wrap64(Value(DigitsOf(s))) == 0
  {
    ValueBound(DigitsOf(s));
    PowMonotone(|DigitsOf(s)|, 18);
    Pow10Sum(3, 3);
    Pow10Sum(6, 6);
    Pow10Sum(12, 6);
  }

  lemma {:induction false} Pow10Sum(a: nat, b: nat)
    ensures Pow10(a + b) == Pow10(a) * Pow10(b)
  {
    if a > 0 {
      Pow10Sum(a - 1, b);
    }
  }

  lemma {:induction false} PowMonotone(j: nat, k: nat)
    requires j <= k
    ensures Pow10(j) <= Pow10(k)
  {
    if j < k {
      PowMonotone(j, k - 1);
    }
  }

  /** The digits of `%d` survive the filter, so atoiSafe reads back any printed value modulo 2^64. */
  lemma {:induction false} AtoiSafeReadsDecimal(n: nat)
    ensures DigitsOf(NatToString(n)) == NatToString(n)
    ensures n <= MaxInt64 ==> Wrap64(Value(DigitsOf(NatToString(n)))) == n
    ensures n == MaxInt64 + 1 ==> Wrap64(Value(DigitsOf(NatToString(n)))) == MinInt64
  {
  }

  // ------------------------------------------------------ entry conversion

  /** A feed entry: the `stamp` of each field the fetcher reads. */
  datatype Entry = Entry(id: string, updated: string, authorName: string, rating: string, content: string, title: string)

  /** `time.Parse` with one fixed layout: a partial function from text to instants. */
  type TimeParser = string -> Option<Time>

  /** The submission instant: the RFC 3339 reading, else the fixed-layout reading, else `now`. */
  function EntryTime(stamp: string, now: Time, rfc3339: TimeParser, fixedLayout: TimeParser): (t: Time)
    ensures rfc3339(stamp).Some? ==> t == rfc3339(stamp).value
    ensures rfc3339(stamp).None? && fixedLayout(stamp).Some? ==> t == fixedLayout(stamp).value
    ensures rfc3339(stamp).None? && fixedLayout(stamp).None? ==> t == now
  {
    match rfc3339(stamp)
    case Some(t) => t
    case None =>
      match fixedLayout(stamp)
      case Some(t) => t
      case None => now
  }

  /** An entry without a rating stamp is the application's own entry, not a review. */
  predicate IsReview(e: Entry) { e.rating != "" }

  function CountReviews(entries: seq<Entry>): nat
  {
    if entries == [] then 0
    else CountReviews(entries[..|entries| - 1]) + (if IsReview(entries[|entries| - 1]) then 1 else 0)
  }

  function ToReview(e: Entry, appId: string, country: string, now: Time,
                    rfc3339: TimeParser, fixedLayout: TimeParser): Review
  {
    Review(e.id, appId, country, e.authorName, Wrap64(Value(DigitsOf(e.rating))), e.title, e.content,
           EntryTime(e.updated, now, rfc3339, fixedLayout))
  }

  /**
   * The reviews of a decoded page: the rated entries, converted in order, one review
   * each; application and country come from the request, the rest from the entry.
   */
  function Convert(entries: seq<Entry>, appId: string, country: string, now: Time,
                   rfc3339: TimeParser, fixedLayout: TimeParser): (rs: seq<Review>)
    ensures |rs| == CountReviews(entries) <= |entries|
    ensures forall i :: 0 <= i < |rs| ==> rs[i].appId == appId && rs[i].country == country
    ensures forall i :: 0 <= i < |rs| ==>
              exists j :: 0 <= j < |entries| && IsReview(entries[j]) &&
                          rs[i] == ToReview(entries[j], appId, country, now, rfc3339, fixedLayout)
  {
    if entries == [] then []
    else
      var init := entries[..|entries| - 1];
      var e := entries[|entries| - 1];
      var earlier := Convert(init, appId, country, now, rfc3339, fixedLayout);
      assert forall j :: 0 <= j < |init| ==> init[j] == entries[j];
      if IsReview(e) then earlier + [ToReview(e, appId, country, now, rfc3339, fixedLayout)] else earlier
  }

  /** The rated entries of a page, in page order. */
  function Rated(entries: seq<Entry>): (rated: seq<Entry>)
    ensures |rated| == CountReviews(entries)
    ensures forall e :: e in rated <==> e in entries && IsReview(e)
  {
    if entries == [] then []
    else
      var init := entries[..|entries| - 1];
      var e := entries[|entries| - 1];
      assert entries == init + [e];
      if IsReview(e) then Rated(init) + [e] else Rated(init)
  }

  /**
   * Every rated entry is converted, once and in order: the i-th review is the
   * conversion of the i-th rated entry.
   */
  lemma {:induction false} ConvertInOrder(entries: seq<Entry>, appId: string, country: string, now: Time,
                                          rfc3339: TimeParser, fixedLayout: TimeParser)
    ensures var rs := Convert(entries, appId, country, now, rfc3339, fixedLayout);
            var rated := Rated(entries);
            |rs| == |rated| &&
            forall i :: 0 <= i < |rs| ==> rs[i] == ToReview(rated[i], appId, country, now, rfc3339, fixedLayout)
  {
    if entries != [] {
      var init := entries[..|entries| - 1];
      var e := entries[|entries| - 1];
      ConvertInOrder(init, appId, country, now, rfc3339, fixedLayout);
      var earlier := Convert(init, appId, country, now, rfc3339, fixedLayout);
      var rs := Convert(entries, appId, country, now, rfc3339, fixedLayout);
      if IsReview(e) {
        assert rs == earlier + [ToReview(e, appId, country, now, rfc3339, fixedLayout)];
        assert Rated(entries) == Rated(init) + [e];
      } else {
        assert rs == earlier;
        assert Rated(entries) == Rated(init);
      }
    }
  }

  /** Converting two runs of entries one after the other converts their concatenation. */
  lemma {:induction false} ConvertAppend(a: seq<Entry>, b: seq<Entry>, appId: string, country: string, now: Time,
                                         rfc3339: TimeParser, fixedLayout: TimeParser)
    ensures Convert(a + b, appId, country, now, rfc3339, fixedLayout)
         == Convert(a, appId, country, now, rfc3339, fixedLayout) + Convert(b, appId, country, now, rfc3339, fixedLayout)
    decreases |b|
  {
    if b == [] {
      assert a + b == a;
    } else {
      var init := b[..|b| - 1];
      assert (a + b)[..|a + b| - 1] == a + init;
      assert (a + b)[|a + b| - 1] == b[|b| - 1];
      ConvertAppend(a, init, appId, country, now, rfc3339, fixedLayout);
    }
  }

  /** The conversion loop of fetchPageOnce. */
  method ConvertEntries(entries: seq<Entry>, appId: string, country: string, now: Time,
                        rfc3339: TimeParser, fixedLayout: TimeParser)
    returns (reviews: seq<Review>)
    ensures reviews == Convert(entries, appId, country, now, rfc3339, fixedLayout)
  {
    reviews := [];
    for i := 0 to |entries|
      invariant reviews == Convert(entries[..i], appId, country, now, rfc3339, fixedLayout)
    {
      assert entries[..i + 1][..i] == entries[..i];
      var e := entries[i];
      if e.rating == "" {
        continue;
      }
      var t := EntryTime(e.updated, now, rfc3339, fixedLayout);
      var rating := AtoiSafe(e.rating);
      reviews := reviews + [Review(e.id, appId, country, e.authorName, rating, e.title, e.content, t)];
    }
    assert entries[..|entries|] == entries;
  }

  // ------------------------------------------------------ one page, once

  datatype ContextError = Canceled | DeadlineExceeded

  /** One byte of a response body. */
  newtype byte = x: int | 0 <= x < 256

  /** The errors a page fetch can end with. */
  datatype FetchError =
    | HttpStatus(status: int, body: seq<byte>, url: string)  // a response other than 200
    | Transport(timeout: bool)                               // the request failed; `timeout` as net.Error reports it
    | Malformed(timeout: bool)                               // decoding the body failed; `timeout`: reading it timed out
    | ContextDone(cause: ContextError)                       // the wait before a retry was interrupted

  /**
   * What the JSON decoder made of a 200 body: a feed document, or a failure. The
   * decoder passes a body read error on unchanged, so a read cut off by the client
   * timeout or the page deadline is a timeout.
   */
  datatype Decoded = Document(entries: seq<Entry>) | Undecodable(timeout: bool)

  /** What the HTTP client and the JSON decoder made of one request. */
  datatype Response =
    | NoResponse(timeout: bool)
    | Response(status: int, body: seq<byte>, decoded: Decoded)

  const MaxErrorBody: nat := 2048

  /** The part of a page's URL before the page number. */
  function UrlBase(country: string, appId: string): string
  {
    "https://itunes.apple.com/" + country + "/rss/customerreviews/id=" + appId + "/sortBy=mostRecent/page="
  }

  /** `feedURL`: the JSON feed of one page of a target's most recent reviews. */
  function FeedUrl(country: string, appId: string, page: int): (u: string)
    ensures |UrlBase(country, appId)| < |u| - 5
    ensures u[..|UrlBase(country, appId)|] == UrlBase(country, appId)
    ensures u[|u| - 5..] == "/json"
    ensures u[|UrlBase(country, appId)|..|u| - 5] == FormatInt(page)
  {
    var base := UrlBase(country, appId);
    var u := base + FormatInt(page) + "/json";
    assert u[..|base|] == base;
    assert u[|base|..|u| - 5] == FormatInt(page);
    u
  }

  /** The page number reads back from a page's URL, so distinct pages of a target have distinct URLs. */
  lemma FeedUrlPage(country: string, appId: string, page: int, other: int)
    requires MinInt64 <= page <= MaxInt64 && MinInt64 <= other <= MaxInt64
    ensures var u := FeedUrl(country, appId, page);
            Atoi(u[|UrlBase(country, appId)|..|u| - 5]) == Some(page)
    ensures FeedUrl(country, appId, page) == FeedUrl(country, appId, other) ==> page == other
  {
    AtoiFormatInt(page);
    AtoiFormatInt(other);
  }

  /** At most the first `limit` bytes of a body, as `io.LimitReader` reads them. */
  function Truncate(body: seq<byte>, limit: nat): (b: seq<byte>)
    ensures |b| <= limit && b <= body
    ensures |body| <= limit ==> b == body
  {
    if |body| <= limit then body else body[..limit]
  }

  /** fetchPageOnce, given the response to its request. */
  function PageOnce(resp: Response, country: string, appId: string, page: int, now: Time,
                    rfc3339: TimeParser, fixedLayout: TimeParser): (r: Result<seq<Review>, FetchError>)
    ensures resp.NoResponse? ==> r == Err(Transport(resp.timeout))
    ensures resp.Response? && resp.status != StatusOK ==>
              && r.Err? && r.error.HttpStatus? && r.error.status == resp.status
              && |r.error.body| <= MaxErrorBody && r.error.body <= resp.body
              && r.error.url == FeedUrl(country, appId, page)
    ensures resp.Response? && resp.status == StatusOK && resp.decoded.Undecodable? ==>
              r == Err(Malformed(resp.decoded.timeout))
    ensures r.Ok? <==> resp.Response? && resp.status == StatusOK && resp.decoded.Document?
    ensures r.Ok? ==> r.value == Convert(resp.decoded.entries, appId, country, now, rfc3339, fixedLayout)
  {
    match resp
    case NoResponse(timeout) => Err(Transport(timeout))
    case Response(status, body, decoded) =>
      if status != StatusOK then Err(HttpStatus(status, Truncate(body, MaxErrorBody), FeedUrl(country, appId, page)))
      else match decoded
        case Undecodable(timeout) => Err(Malformed(timeout))
        case Document(entries) => Ok(Convert(entries, appId, country, now, rfc3339, fixedLayout))
  }

  method FetchPageOnce(resp: Response, country: string, appId: string, page: int, now: Time,
                       rfc3339: TimeParser, fixedLayout: TimeParser)
    returns (r: Result<seq<Review>, FetchError>)
    ensures r == PageOnce(resp, country, appId, page, now, rfc3339, fixedLayout)
  {
    match resp
    case NoResponse(timeout) =>
      return Err(Transport(timeout));
    case Response(status, body, decoded) =>
      if status != StatusOK {
        return Err(HttpStatus(status, Truncate(body, MaxErrorBody), FeedUrl(country, appId, page)));
      }
      match decoded
      case Undecodable(timeout) =>
        return Err(Malformed(timeout));
      case Document(entries) =>
        var reviews := ConvertEntries(entries, appId, country, now, rfc3339, fixedLayout);
        return Ok(reviews);
  }

  // ------------------------------------------------------ error classes

  /** `isTimeout`: the error reports itself as a timeout (a context deadline does). */
  function IsTimeout(e: FetchError): (t: bool)
    ensures e.HttpStatus? ==> !t
    ensures e.Transport? || e.Malformed? ==> (t <==> e.timeout)
    ensures e.ContextDone? ==> (t <==> e.cause == DeadlineExceeded)
  {
    match e
    case HttpStatus(_, _, _) => false
    case Transport(timeout) => timeout
    case Malformed(timeout) => timeout
    case ContextDone(cause) => cause == DeadlineExceeded
  }

  /** `errorType`: the class of an error as the alert reports it. */
  function ErrorType(e: FetchError): (t: string)
    ensures e.HttpStatus? ==> t == "http_status_" + FormatInt(e.status)
    ensures !e.HttpStatus? && IsTimeout(e) ==> t == "network_timeout"
    ensures !e.HttpStatus? && !IsTimeout(e) ==> t == "network_error"
  {
    match e
    case HttpStatus(status, _, _) => "http_status_" + FormatInt(status)
    case _ => if IsTimeout(e) then "network_timeout" else "network_error"
  }

  /**
   * The three classes never collide, and an HTTP class names its status exactly:
   * reading the digits after "http_status_" gives the status back.
   */
  lemma ErrorTypeClasses(e: FetchError)
    requires e.HttpStatus? ==> MinInt64 <= e.status <= MaxInt64
    ensures e.HttpStatus? <==> |ErrorType(e)| > 12 && ErrorType(e)[..12] == "http_status_"
    ensures e.HttpStatus? ==> Atoi(ErrorType(e)[12..]) == Some(e.status)
  {
    if e.HttpStatus? {
      AtoiFormatInt(e.status);
      assert ErrorType(e)[12..] == FormatInt(e.status);
    } else {
      assert ErrorType(e)[..12] != "http_status_" by {
        assert ErrorType(e)[0] == 'n';
      }
    }
  }

  // ------------------------------------------------------ retrying fetch

  const MaxAttempts: nat := 3
  const BaseBackoff: int := 500 * Millisecond
  const MaxJitter: int := 200 * Millisecond

  /** The pause after attempt i (from 0) before the next one, without its jitter: 500ms, then 1s. */
  function Backoff(i: nat): (d: int)
    ensures i == 0 ==> d == 500 * Millisecond
    ensures i == 1 ==> d == Second
  {
    if i == 0 then BaseBackoff else 2 * Backoff(i - 1)
  }

  /** The alert sent when every attempt failed: target id and error class (NotifyWebhook's arguments). */
  datatype Alert = Alert(url: string, id: string, errorType: string)

  /**
   * FetchPageWithRetry. `responses[i]` is what attempt i would receive, `jitters[i]`
   * the jitter drawn after attempt i, and `interrupts[i]` whether the context ends
   * during the wait after attempt i. Returns the page, the number of attempts
   * made, the waits begun and the alert sent, if any.
   */
  method FetchPageWithRetry(cfg: Config, country: string, appId: string, page: int, now: Time,
                            rfc3339: TimeParser, fixedLayout: TimeParser,
                            responses: seq<Response>, jitters: seq<int>, interrupts: seq<Option<ContextError>>)
    returns (r: Result<seq<Review>, FetchError>, tries: nat, waits: seq<int>, alert: Option<Alert>)
    requires |responses| == MaxAttempts && |jitters| == MaxAttempts - 1 && |interrupts| == MaxAttempts - 1
    requires forall i :: 0 <= i < |jitters| ==> 0 <= jitters[i] < MaxJitter
    ensures 1 <= tries <= MaxAttempts
    ensures forall i :: 0 <= i < tries - 1 ==>
              PageOnce(responses[i], country, appId, page, now, rfc3339, fixedLayout).Err? && interrupts[i].None?
    ensures |waits| <= MaxAttempts - 1
    ensures forall i :: 0 <= i < |waits| ==> waits[i] == Backoff(i) + jitters[i]
    ensures var last := PageOnce(responses[tries - 1], country, appId, page, now, rfc3339, fixedLayout);
            && (last.Ok? ==> r == last && |waits| == tries - 1 && alert == None)
            && (last.Err? && tries < MaxAttempts ==>
                  interrupts[tries - 1].Some? && r == Err(ContextDone(interrupts[tries - 1].value)) &&
                  |waits| == tries && alert == None)
            && (last.Err? && tries == MaxAttempts ==>
                  r == last && |waits| == MaxAttempts - 1 &&
                  alert == Some(Alert(cfg.webhookUrl, appId + "-" + country, ErrorType(last.error))))
  {
    var lastErr: FetchError := Malformed(false);
    waits := [];
    tries := 0;
    while tries < MaxAttempts
      invariant 0 <= tries < MaxAttempts && |waits| == tries
      invariant forall i :: 0 <= i < tries ==>
                  PageOnce(responses[i], country, appId, page, now, rfc3339, fixedLayout).Err? && interrupts[i].None?
      invariant forall i :: 0 <= i < |waits| ==> waits[i] == Backoff(i) + jitters[i]
    {
      var res := FetchPageOnce(responses[tries], country, appId, page, now, rfc3339, fixedLayout);
      tries := tries + 1;
      if res.Ok? {
        return res, tries, waits, None;
      }
      lastErr := res.error;
      if tries == MaxAttempts {
        break;
      }
      // backoff with jitter, interrupted when the context ends
      waits := waits + [Backoff(tries - 1) + jitters[tries - 1]];
      if interrupts[tries - 1].Some? {
        return Err(ContextDone(interrupts[tries - 1].value)), tries, waits, None;
      }
    }
    alert := Some(Alert(cfg.webhookUrl, appId + "-" + country, ErrorType(lastErr)));
    r := Err(lastErr);
  }
}
