/**
 * The rate-limit backoff policy: a call is repeated while the service
 * answers "rate limited", sleeping 1, 2, 4, ... time units in between, each
 * delay doubled and capped at a ceiling; any other failure propagates at
 * once. The service is an oracle: the finite sequence of outcomes that
 * successive attempts of one call receive.
 */
module Retry {

  /** The failures a remote call can raise besides "rate limited". */
  datatype Failure = AuthError | ApiError | OtherError

  /** What one attempt of a remote call receives. */
  datatype Outcome<T> = RateLimited | Fails(error: Failure) | Answers(value: T)

  /** How a wrapped call ends: it returns, it raises, or, when every outcome the
      oracle holds is "rate limited", it is still retrying. */
  datatype RetryEnd<T> = Returned(value: T) | Raised(error: Failure) | StillRetrying

  /** The end of a wrapped call and the sleeps it made, in order. */
  datatype RetryRun<T> = RetryRun(end: RetryEnd<T>, sleeps: seq<nat>)

  /** The default ceiling on one sleep. */
  const DefaultMaxSleep: nat := 8

  function Min(a: nat, b: nat): nat {
    if a <= b then a else b
  }

  function Pow2(i: nat): nat {
    if i == 0 then 1 else 2 * Pow2(i - 1)
  }

  /** The `i`-th sleep: 1 first, then the previous one doubled and capped at `maxSleep`. */
  function Delay(i: nat, maxSleep: nat): nat {
    if i == 0 then 1 else Min(maxSleep, 2 * Delay(i - 1, maxSleep))
  }

  /** The first `k` sleeps. */
  function Delays(k: nat, maxSleep: nat): (ds: seq<nat>)
    ensures |ds| == k
    ensures forall i :: 0 <= i < k ==> ds[i] == Delay(i, maxSleep)
  {
    if k == 0 then [] else Delays(k - 1, maxSleep) + [Delay(k - 1, maxSleep)]
  }

  /** The number of "rate limited" outcomes the sequence starts with. */
  function LeadingRateLimits<T>(outcomes: seq<Outcome<T>>): (k: nat)
    ensures k <= |outcomes|
    ensures forall i :: 0 <= i < k ==> outcomes[i].RateLimited?
    ensures k < |outcomes| ==> !outcomes[k].RateLimited?
  {
    if outcomes == [] || !outcomes[0].RateLimited? then 0
    else 1 + LeadingRateLimits(outcomes[1..])
  }

  /** What the wrapped call does against `outcomes`: one sleep per leading
      "rate limited", then the first other outcome decides the end. */
  function Retried<T>(outcomes: seq<Outcome<T>>, maxSleep: nat): RetryRun<T> {
    var k := LeadingRateLimits(outcomes);
    var end :=
      if k == |outcomes| then StillRetrying
      else match outcomes[k]
        case Answers(v) => Returned(v)
        case Fails(e) => Raised(e)
        case RateLimited => StillRetrying;
    RetryRun(end, Delays(k, maxSleep))
  }

  /** `retry_on_ratelimit(func, max_sleep=maxSleep)` applied to one call. */
  method RetryOnRateLimit<T>(outcomes: seq<Outcome<T>>, maxSleep: nat) returns (run: RetryRun<T>)
    ensures run == Retried(outcomes, maxSleep)
  {
    var delay: nat := 1;
    var sleeps: seq<nat> := [];
    var attempt := 0;
    while attempt < |outcomes|
      invariant attempt <= LeadingRateLimits(outcomes)
      invariant sleeps == Delays(attempt, maxSleep)
      invariant delay == Delay(attempt, maxSleep)
    {
      match outcomes[attempt]
      case Answers(v) =>
        return RetryRun(Returned(v), sleeps);
      case Fails(e) =>
        return RetryRun(Raised(e), sleeps);
      case RateLimited =>
        sleeps := sleeps + [delay];
        delay := Min(maxSleep, delay * 2);
        attempt := attempt + 1;
    }
    return RetryRun(StillRetrying, sleeps);
  }

  /** With a ceiling of at least 1, the `i`-th sleep is `min(maxSleep, 2^i)`. */
  lemma {:induction false} DelayClosedForm(i: nat, maxSleep: nat)
    requires maxSleep >= 1
    ensures Delay(i, maxSleep) == Min(maxSleep, Pow2(i))
  {
    if i > 0 {
      DelayClosedForm(i - 1, maxSleep);
    }
  }

  /** With a ceiling of at least 1, every sleep lies between 1 and the ceiling,
      and no sleep is shorter than the one before it. */
  lemma {:induction false} DelayBounds(i: nat, maxSleep: nat)
    requires maxSleep >= 1
    ensures 1 <= Delay(i, maxSleep) <= maxSleep
    ensures Delay(i, maxSleep) <= Delay(i + 1, maxSleep)
  {
    if i > 0 {
      DelayBounds(i - 1, maxSleep);
    }
  }

  /** With the default ceiling the sleeps are 1, 2, 4, 8, 8. */
  lemma DefaultDelays()
    ensures Delays(5, DefaultMaxSleep) == [1, 2, 4, 8, 8]
  {
    assert Delay(4, DefaultMaxSleep) == 8;
  }

  /** The sleeps of every wrapped call start again at 1. */
  lemma FirstSleepIsOne<T>(outcomes: seq<Outcome<T>>, maxSleep: nat)
    requires Retried(outcomes, maxSleep).sleeps != []
    ensures Retried(outcomes, maxSleep).sleeps[0] == 1
  {
  }

  lemma {:induction false} LeadingOfPrefix<T>(k: nat, o: Outcome<T>, rest: seq<Outcome<T>>)
    requires !o.RateLimited?
    ensures LeadingRateLimits(seq(k, _ => RateLimited) + [o] + rest) == k
  {
    var s := seq(k, _ => RateLimited) + [o] + rest;
    if k > 0 {
      assert s[1..] == seq(k - 1, _ => RateLimited) + [o] + rest;
      LeadingOfPrefix(k - 1, o, rest);
    }
  }

  /** There is no retry cap: after any number `k` of "rate limited" outcomes, the
      first other outcome ends the call, after exactly `k` sleeps; an answer is
      returned unchanged and a failure is raised as it is. */
  lemma SettlesAfterRateLimits<T>(k: nat, o: Outcome<T>, rest: seq<Outcome<T>>, maxSleep: nat)
    requires !o.RateLimited?
    ensures var run := Retried(seq(k, _ => RateLimited) + [o] + rest, maxSleep);
      run.sleeps == Delays(k, maxSleep)
      && (o.Answers? ==> run.end == Returned(o.value))
      && (o.Fails? ==> run.end == Raised(o.error))
  {
    LeadingOfPrefix(k, o, rest);
    assert (seq(k, _ => RateLimited) + [o] + rest)[k] == o;
  }

  /** A failure other than "rate limited" on the first attempt propagates with no sleep. */
  lemma FailureIsImmediate<T>(e: Failure, rest: seq<Outcome<T>>, maxSleep: nat)
    ensures Retried([Fails(e)] + rest, maxSleep) == RetryRun(Raised(e), [])
  {
    assert ([Fails(e)] + rest)[0] == Fails(e);
  }
}
