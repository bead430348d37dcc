/**
 * The records shared by the ingestion pipeline (backend/internal/types.go)
 * and the start-up configuration with its defaults (ParseConfig).
 */
module Types {
  import opened Wrappers

  /** Instants and durations are integer nanoseconds, the unit of Go's `time.Duration`. */
  type Time = int

  /** Go's zero `time.Time{}`: the value of a `LastPoll` that was never set. */
  const ZeroTime: Time := 0

  const Millisecond: int := 1_000_000
  const Second: int := 1000 * Millisecond
  const Minute: int := 60 * Second
  const Hour: int := 60 * Minute

  /** HTTP 200, the status of a successful feed page and of a /reviews reply. */
  const StatusOK: int := 200

  /** One polled target: an application in one country's store. */
  datatype AppConfig = AppConfig(appId: string, country: string)

  datatype CircuitBreakerConfig = CircuitBreakerConfig(failureThreshold: int, openCooldownSeconds: int)

  datatype Config = Config(
    pollIntervalMinutes: int,
    webhookUrl: string,          // empty: alerting disabled
    circuitBreaker: CircuitBreakerConfig,
    apps: seq<AppConfig>)

  /** One customer review; `submittedAt` is in UTC. */
  datatype Review = Review(
    id: string,
    appId: string,
    country: string,
    author: string,
    rating: int,
    title: string,
    content: string,
    submittedAt: Time)

  /** What the store remembers per target: the ids already ingested, in ingestion order, and the last poll. */
  datatype StateEntry = StateEntry(seenIds: seq<string>, lastPoll: Time)

  /** The persisted state document: target key to entry. */
  type State = map<string, StateEntry>

  /** The reason a configuration document could not be decoded (the JSON decoder is not part of this model). */
  datatype DecodeError = DecodeError(reason: string)

  const DefaultPollIntervalMinutes: int := 15
  const DefaultFailureThreshold: int := 3
  const DefaultOpenCooldownSeconds: int := 60

  /** The three defaults ParseConfig applies to a decoded configuration. */
  function Normalize(c: Config): (r: Config)
    ensures r.pollIntervalMinutes > 0 && r.circuitBreaker.failureThreshold > 0
    ensures r.circuitBreaker.openCooldownSeconds > 0
    ensures c.pollIntervalMinutes > 0 ==> r.pollIntervalMinutes == c.pollIntervalMinutes
    ensures c.pollIntervalMinutes <= 0 ==> r.pollIntervalMinutes == DefaultPollIntervalMinutes
    ensures c.circuitBreaker.failureThreshold > 0 ==>
              r.circuitBreaker.failureThreshold == c.circuitBreaker.failureThreshold
    ensures c.circuitBreaker.failureThreshold <= 0 ==>
              r.circuitBreaker.failureThreshold == DefaultFailureThreshold
    ensures c.circuitBreaker.openCooldownSeconds > 0 ==>
              r.circuitBreaker.openCooldownSeconds == c.circuitBreaker.openCooldownSeconds
    ensures c.circuitBreaker.openCooldownSeconds <= 0 ==>
              r.circuitBreaker.openCooldownSeconds == DefaultOpenCooldownSeconds
    ensures r.webhookUrl == c.webhookUrl && r.apps == c.apps
  {
    var poll := if c.pollIntervalMinutes <= 0 then DefaultPollIntervalMinutes else c.pollIntervalMinutes;
    var threshold :=
      if c.circuitBreaker.failureThreshold <= 0 then DefaultFailureThreshold
      else c.circuitBreaker.failureThreshold;
    var cooldown :=
      if c.circuitBreaker.openCooldownSeconds <= 0 then DefaultOpenCooldownSeconds
      else c.circuitBreaker.openCooldownSeconds;
    c.(pollIntervalMinutes := poll, circuitBreaker := CircuitBreakerConfig(threshold, cooldown))
  }

  /** A configuration whose three numeric settings are all usable. */
  predicate WellFormed(c: Config) {
    c.pollIntervalMinutes > 0 && c.circuitBreaker.failureThreshold > 0 && c.circuitBreaker.openCooldownSeconds > 0
  }

  /**
   * ParseConfig, given what the JSON decoder made of the reader: a decode error is
   * passed on with no configuration; otherwise the defaults are applied.
   */
  function ParseConfig(decoded: Result<Config, DecodeError>): (r: Result<Config, DecodeError>)
    ensures decoded.Err? <==> r.Err?
    ensures decoded.Err? ==> r.error == decoded.error
    ensures r.Ok? ==> WellFormed(r.value) && r.value == Normalize(decoded.value)
  {
    match decoded
    case Err(e) => Err(e)
    case Ok(c) => Ok(Normalize(c))
  }

  /** The defaults change nothing in a configuration that already has them: normalising is idempotent. */
  lemma NormalizeIdempotent(c: Config)
    ensures Normalize(Normalize(c)) == Normalize(c)
    ensures WellFormed(c) ==> Normalize(c) == c
  {
  }
}
