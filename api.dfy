// The request handling of the HTTP API that touches the core: the required
// appId/country parameters of /poll and /reviews, and the clamp on the
// `hours` window of /reviews. Transport, JSON and headers are not modelled.

module Api {
  import opened Wrappers
  import opened Types
  import opened Decimal
  import opened Store

  const StatusAccepted: int := 202
  const StatusBadRequest: int := 400
  const StatusInternalServerError: int := 500

  const DefaultHours: int := 48
  /** Ninety days, the widest window /reviews serves. */
  const MaxHours: int := 24 * 90

  const MissingParams: string := "appId and country are required"

  /** What a handler writes back; the bodies keep only the fields the model needs. */
  datatype Reply =
    | ErrorReply(status: int, message: string)
    | PollStarted(dispatched: AppConfig)
    | ReviewsPage(appId: string, country: string, from: Time, to: Time, count: nat, reviews: seq<Review>)

  function StatusOf(r: Reply): int {
    match r
    case ErrorReply(status, _) => status
    case PollStarted(_) => StatusAccepted
    case ReviewsPage(_, _, _, _, _, _) => StatusOK
  }

  predicate MissingParam(appId: string, country: string) {
    appId == "" || country == ""
  }

  /**
   * /poll: both parameters are required; otherwise a poll of exactly that
   * target is dispatched in the background and 202 is returned at once.
   */
  function PollReply(appId: string, country: string): (r: Reply)
    ensures MissingParam(appId, country) <==> r == ErrorReply(StatusBadRequest, MissingParams)
    ensures !MissingParam(appId, country) <==> r == PollStarted(AppConfig(appId, country))
    ensures StatusOf(r) == StatusBadRequest || StatusOf(r) == StatusAccepted
  {
    if MissingParam(appId, country) then ErrorReply(StatusBadRequest, MissingParams)
    else PollStarted(AppConfig(appId, country))
  }

  /**
   * The `hours` query value: absent or unusable values fall back to the
   * default; a decimal in 1..MaxHours is taken as is.
   */
  function Hours(hs: string): (h: int)
    ensures 1 <= h <= MaxHours
    ensures hs == "" ==> h == DefaultHours
    ensures hs != "" && Atoi(hs).Some? && 0 < Atoi(hs).value <= MaxHours ==> h == Atoi(hs).value
    ensures h != DefaultHours ==> Atoi(hs) == Some(h)
  {
    if hs == "" then DefaultHours
    else match Atoi(hs)
      case Some(n) => if 0 < n <= MaxHours then n else DefaultHours
      case None => DefaultHours
  }

  /** Every window the clamp admits is read back from its own decimal form. */
  lemma HoursRoundTrip(n: int)
    requires 1 <= n <= MaxHours
    ensures Hours(FormatInt(n)) == n
  {
    AtoiFormatInt(n);
  }

  /** Values outside the admitted window, and text that is not a number, fall back to the default. */
  lemma HoursFallback(hs: string)
    requires Atoi(hs).None? || Atoi(hs).value <= 0 || Atoi(hs).value > MaxHours
    ensures Hours(hs) == DefaultHours
  {
  }

  /** The /reviews query after validation: the target and its window in hours. */
  datatype ReviewsQuery = ReviewsQuery(app: AppConfig, hours: int)

  function ParseReviewsQuery(appId: string, country: string, hs: string): (q: Result<ReviewsQuery, Reply>)
    ensures MissingParam(appId, country) <==> q == Err(ErrorReply(StatusBadRequest, MissingParams))
    ensures q.Ok? ==> q.value.app == AppConfig(appId, country) && 1 <= q.value.hours <= MaxHours
    ensures q.Ok? ==> q.value.hours == Hours(hs)
  {
    if MissingParam(appId, country) then Err(ErrorReply(StatusBadRequest, MissingParams))
    else Ok(ReviewsQuery(AppConfig(appId, country), Hours(hs)))
  }

  /**
   * /reviews after the store read `read` for the window `q.hours` hours back
   * from `now`: a read error is a 500 with a fixed message; otherwise the
   * reviews are returned with their count and the window's bounds.
   */
  function ReviewsReply(q: ReviewsQuery, read: Result<seq<Review>, StoreError>, now: Time): (r: Reply)
    ensures read.Err? <==> r == ErrorReply(StatusInternalServerError, "internal error")
    ensures read.Ok? ==> r.ReviewsPage? && r.reviews == read.value && r.count == |read.value|
    ensures read.Ok? ==> r.appId == q.app.appId && r.country == q.app.country
    ensures read.Ok? ==> r.to == now && r.to - r.from == q.hours * Hour
  {
    match read
    case Err(_) => ErrorReply(StatusInternalServerError, "internal error")
    case Ok(revs) =>
      ReviewsPage(q.app.appId, q.app.country, now - q.hours * Hour, now, |revs|, revs)
  }

  /** The whole /reviews handler, given what the store read returns for each window. */
  function ReviewsHandler(appId: string, country: string, hs: string, now: Time,
                          read: Result<seq<Review>, StoreError>): (r: Reply)
    ensures MissingParam(appId, country) ==> StatusOf(r) == StatusBadRequest
    ensures !MissingParam(appId, country) ==>
              r == ReviewsReply(ReviewsQuery(AppConfig(appId, country), Hours(hs)), read, now)
  {
    match ParseReviewsQuery(appId, country, hs)
    case Err(reply) => reply
    case Ok(q) => ReviewsReply(q, read, now)
  }

  /**
   * A successful /reviews reply over a store read that met its contract
   * lists exactly the logged reviews of the window, newest first, and
   * counts them.
   */
  lemma ReviewsReplyListsWindow(appId: string, country: string, hs: string, now: Time,
                                lines: seq<LogLine>, revs: seq<Review>)
    requires !MissingParam(appId, country)
    requires NewestFirst(revs)
    requires multiset(revs) == multiset(Recent(lines, now - Hours(hs) * Hour))
    ensures var r := ReviewsHandler(appId, country, hs, now, Ok(revs));
            && r.ReviewsPage?
            && NewestFirst(r.reviews)
            && r.count == |Recent(lines, now - Hours(hs) * Hour)|
            && forall x :: x in r.reviews <==> Encoded(x) in lines && x.submittedAt >= r.from
  {
    var cutoff := now - Hours(hs) * Hour;
    calc {
      |revs|;
      |multiset(revs)|;
      |multiset(Recent(lines, cutoff))|;
      |Recent(lines, cutoff)|;
    }
    forall x
      ensures x in revs <==> Encoded(x) in lines && x.submittedAt >= cutoff
    {
      assert x in revs <==> x in multiset(revs);
      assert x in Recent(lines, cutoff) <==> x in multiset(Recent(lines, cutoff));
      RecentMembers(lines, cutoff, x);
    }
  }
}
