/**
 One webhook delivery: the retry loop with its attempt cap, its abort signal and
 its jittered exponential backoff. The responses, the random numbers and the
 moments at which the signal is raised are inputs.
 */
module WebhookDelivery {
  import opened Common
  import opened Numerals

  datatype Response = Status(code: nat) | NetworkError(message: string)

  datatype AttemptRecord = AttemptRecord(attempt: nat, statusCode: Option<nat>, failed: bool)

  datatype DeliveryStatus = Delivered | Failed | Pending

  datatype Record =
    Record(status: DeliveryStatus, attempts: nat, lastStatusCode: Option<nat>, history: seq<AttemptRecord>)

  datatype RetryConfig = RetryConfig(maxAttempts: nat, baseDelayMs: nat, maxDelayMs: nat, jitterRatio: real)

  /** What the environment is checked for at startup. */
  predicate ValidConfig(c: RetryConfig) {
    c.maxAttempts >= 1 && c.baseDelayMs >= 1 && c.maxDelayMs >= 1 && 0.0 <= c.jitterRatio <= 1.0
  }

  predicate Success(r: Response) {
    r.Status? && 200 <= r.code < 300
  }

  // ----- backoff -----------------------------------------------------------

  /** Math.round. */
  function Round(x: real): int {
    (x + 0.5).Floor
  }

  function Exponential(c: RetryConfig, attempt: nat): nat {
    Min(c.maxDelayMs, c.baseDelayMs * Pow2(attempt))
  }

  function Clamped(cap: nat, x: real): int {
    Min(cap, Max(0, Round(x)))
  }

  function Multiplier(ratio: real, random: real): real {
    1.0 - ratio + random * 2.0 * ratio
  }

  function Scaled(n: nat, factor: real): real {
    n as real * factor
  }

  function BackoffDelay(c: RetryConfig, attempt: nat, random: real): int {
    Clamped(c.maxDelayMs, Scaled(Exponential(c, attempt), Multiplier(c.jitterRatio, random)))
  }

  lemma Scale(x: real, lo: real, m: real, hi: real)
    requires x >= 0.0 && lo <= m <= hi
    ensures x * lo <= x * m <= x * hi
  {
  }

  lemma MultiplierBounds(ratio: real, random: real)
    requires 0.0 <= ratio && 0.0 <= random < 1.0
    ensures 1.0 - ratio <= Multiplier(ratio, random) <= 1.0 + ratio
  {
    var band := 2.0 * ratio;
    Scale(band, 0.0, random, 1.0);
    assert random * 2.0 * ratio == band * random;
  }

  lemma ScaledBounds(n: nat, lo: real, m: real, hi: real)
    requires 0.0 <= lo <= m <= hi && lo <= 1.0
    ensures 0.0 <= Scaled(n, lo) <= Scaled(n, m) <= Scaled(n, hi) && Scaled(n, lo) <= n as real
  {
    Scale(n as real, lo, m, hi);
    Scale(n as real, 0.0, lo, 1.0);
  }

  lemma ClampedBounds(e: nat, cap: nat, lo: real, x: real, hi: real)
    requires e <= cap && lo <= e as real && 0.0 <= lo <= x <= hi
    ensures lo - 0.5 <= Clamped(cap, x) as real <= hi + 0.5
    ensures 0 <= Clamped(cap, x) <= cap
  {
    var r := Round(x);
    assert x - 0.5 <= r as real <= x + 0.5;
    assert (cap as real) >= e as real;
  }

  /**
   Every delay lies in [0, maxDelayMs] and within the jitter band around the capped
   exponential, up to rounding and the cap.
   */
  lemma BackoffBounds(c: RetryConfig, attempt: nat, random: real)
    requires ValidConfig(c) && 0.0 <= random < 1.0
    ensures 0 <= BackoffDelay(c, attempt, random) <= c.maxDelayMs
    ensures
      var exponential, delay := Exponential(c, attempt), BackoffDelay(c, attempt, random) as real;
      Scaled(exponential, 1.0 - c.jitterRatio) - 0.5 <= delay <= Scaled(exponential, 1.0 + c.jitterRatio) + 0.5
  {
    var e, m := Exponential(c, attempt), Multiplier(c.jitterRatio, random);
    var lo, hi := 1.0 - c.jitterRatio, 1.0 + c.jitterRatio;
    MultiplierBounds(c.jitterRatio, random);
    ScaledBounds(e, lo, m, hi);
    ClampedBounds(e, c.maxDelayMs, Scaled(e, lo), Scaled(e, m), Scaled(e, hi));
  }

  /**
   The delay is the integer nearest to the exponential times a factor that runs evenly from one
   less the ratio to one more, or the cap if that is less.
   */
  lemma BackoffExact(c: RetryConfig, attempt: nat, random: real, n: nat)
    requires ValidConfig(c)
    requires
      var factor := (1.0 - random) * (1.0 - c.jitterRatio) + random * (1.0 + c.jitterRatio);
      n as real - 0.5 <= Exponential(c, attempt) as real * factor < n as real + 0.5
    ensures BackoffDelay(c, attempt, random) == Min(c.maxDelayMs, n)
  {
    assert Multiplier(c.jitterRatio, random) ==
           (1.0 - random) * (1.0 - c.jitterRatio) + random * (1.0 + c.jitterRatio);
  }

  /** The exponential part begins with the base delay, doubles until it reaches the cap, and stays there. */
  lemma {:induction false} ExponentialGrows(c: RetryConfig, attempt: nat)
    ensures Exponential(c, 0) == Min(c.maxDelayMs, c.baseDelayMs)
    ensures Exponential(c, attempt + 1) == Min(c.maxDelayMs, 2 * Exponential(c, attempt))
  {
    assert c.baseDelayMs * Pow2(attempt + 1) == 2 * (c.baseDelayMs * Pow2(attempt));
  }

  // ----- the loop ----------------------------------------------------------

  function RecordOf(attempt: nat, r: Response): AttemptRecord {
    AttemptRecord(attempt, if r.Status? then Some(r.code) else None, !Success(r))
  }

  /** A record has the number of the attempt and the code it got, and failed unless that is from 200 to 299. */
  lemma RecordExact(attempt: nat, r: Response)
    ensures
      var h := RecordOf(attempt, r);
      && h.attempt == attempt && (h.statusCode.Some? <==> r.Status?)
      && (r.Status? ==> h.statusCode == Some(r.code) && (h.failed <==> r.code < 200 || r.code > 299))
      && (r.NetworkError? ==> h.failed)
  {
  }

  /**
   Delivers with the attempts from `startAttempt` on. The response to attempt
   number a (counted from 0) is responses(a), and abort(a) says whether the signal
   is up when the loop looks at it before that attempt.
   */
  method DeliverWebhook(c: RetryConfig, startAttempt: nat, attemptHistory: seq<AttemptRecord>,
                        responses: nat -> Response, abort: nat -> bool, random: nat -> real)
    returns (record: Record, delays: seq<int>)
    requires ValidConfig(c) && forall a :: 0.0 <= random(a) < 1.0
    ensures startAttempt <= record.attempts <= Max(startAttempt, c.maxAttempts)
    // one history record per post, numbered on from where the job stood
    ensures |record.history| == |attemptHistory| + record.attempts - startAttempt
    ensures attemptHistory <= record.history
    ensures forall a :: startAttempt <= a < record.attempts ==>
      record.history[|attemptHistory| + a - startAttempt] == RecordOf(a + 1, responses(a))
    // the loop goes on exactly as long as nothing has succeeded and nothing aborts it
    ensures forall a :: startAttempt <= a < record.attempts ==> !abort(a)
    ensures forall a :: startAttempt <= a < record.attempts - 1 ==> !Success(responses(a))
    ensures match record.status
      case Delivered => record.attempts > startAttempt && Success(responses(record.attempts - 1))
      case Failed =>
        && record.attempts >= c.maxAttempts
        && (record.attempts > startAttempt ==> !Success(responses(record.attempts - 1)))
      case Pending => record.attempts < c.maxAttempts && abort(record.attempts)
                      && (record.attempts > startAttempt ==> !Success(responses(record.attempts - 1)))
    ensures record.attempts > startAttempt ==>
      record.lastStatusCode == RecordOf(0, responses(record.attempts - 1)).statusCode
    // a delay after every failure but the last possible one, each within the cap
    ensures |delays| ==
      if record.attempts > startAttempt && !record.status.Pending? then record.attempts - startAttempt - 1
      else record.attempts - startAttempt
    ensures forall k :: 0 <= k < |delays| ==>
      delays[k] == BackoffDelay(c, startAttempt + k, random(startAttempt + k)) && 0 <= delays[k] <= c.maxDelayMs
  {
    var attempts, lastStatusCode, history := startAttempt, None, attemptHistory;
    delays := [];
    var attempt := startAttempt;
    while attempt < c.maxAttempts
      invariant startAttempt <= attempt == attempts <= Max(startAttempt, c.maxAttempts)
      invariant |history| == |attemptHistory| + attempt - startAttempt && attemptHistory <= history
      invariant forall a :: startAttempt <= a < attempt ==>
        history[|attemptHistory| + a - startAttempt] == RecordOf(a + 1, responses(a))
      invariant forall a :: startAttempt <= a < attempt ==> !abort(a) && !Success(responses(a))
      invariant attempt > startAttempt ==> lastStatusCode == RecordOf(0, responses(attempt - 1)).statusCode
      invariant |delays| == if attempt < c.maxAttempts || attempt == startAttempt then attempt - startAttempt
                            else attempt - startAttempt - 1
      invariant forall k :: 0 <= k < |delays| ==>
        delays[k] == BackoffDelay(c, startAttempt + k, random(startAttempt + k)) && 0 <= delays[k] <= c.maxDelayMs
    {
      if abort(attempt) {
        return Record(Pending, attempts, lastStatusCode, history), delays;
      }
      attempts := attempt + 1;
      var response := responses(attempt);
      match response {
        case Status(code) =>
          lastStatusCode := Some(code);
          if code >= 200 && code < 300 {
            history := history + [AttemptRecord(attempt + 1, Some(code), false)];
            return Record(Delivered, attempts, lastStatusCode, history), delays;
          }
          history := history + [AttemptRecord(attempt + 1, Some(code), true)];
        case NetworkError(_) =>
          lastStatusCode := None;
          history := history + [AttemptRecord(attempt + 1, None, true)];
      }
      if attempt != c.maxAttempts - 1 {
        BackoffBounds(c, attempt, random(attempt));
        delays := delays + [BackoffDelay(c, attempt, random(attempt))];
      }
      attempt := attempt + 1;
    }
    return Record(Failed, attempts, lastStatusCode, history), delays;
  }
}
