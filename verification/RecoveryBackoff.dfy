// internal/gateway/availability.go:311-335: how long a failed route rests.
module RecoveryBackoff {
  // Instants and durations count nanoseconds; instant 0 is the zero time.
  type Time = nat

  const SECOND: nat := 1_000_000_000
  const MINUTE: nat := 60 * SECOND
  const DAY: nat := 24 * 60 * MINUTE
  const ROUTE_COOLDOWN: nat := 30 * SECOND
  const BILLING_COOLDOWN: nat := 5 * MINUTE
  const MAX_BACKOFF: nat := 30 * MINUTE
  const MAX_FAILURES: nat := 65535

  function Max(a: int, b: int): int {
    if a < b then b else a
  }

  function Min(a: int, b: int): int {
    if a < b then a else b
  }

  predicate Terminal(reason: string) {
    reason == "insufficient_balance" || reason == "quota_exhausted"
    || reason == "provider_access_denied" || reason == "fair_use_throttled"
  }

  function FirstDelay(reason: string): (d: nat)
    ensures SECOND < d <= MAX_BACKOFF
  {
    if Terminal(reason) then BILLING_COOLDOWN else ROUTE_COOLDOWN
  }

  function PowerOfTwo(n: nat): (p: nat)
    ensures p >= 1
  {
    if n == 0 then 1 else 2 * PowerOfTwo(n - 1)
  }

  lemma {:induction false} PowerOfTwoMonotone(m: nat, n: nat)
    requires m <= n
    ensures PowerOfTwo(m) <= PowerOfTwo(n)
  {
    if m < n {
      PowerOfTwoMonotone(m, n - 1);
    }
  }

  // Doubles with every further failure, up to half an hour.
  function Base(reason: string, failures: nat): nat {
    if reason == "unclassified_stream_error" || failures <= 1 then FirstDelay(reason)
    else Min(MAX_BACKOFF, FirstDelay(reason) * PowerOfTwo(failures - 1))
  }

  // The longer of the jittered base and the upstream's own wait, at most a day.
  function Delay(reason: string, failures: nat, upstream: int, jitter: nat -> nat): nat {
    if reason == "rate_limited" && failures > 10 then DAY
    else Min(DAY, Max(Base(reason, failures) + jitter(Base(reason, failures)), upstream))
  }

  lemma BaseBounds(reason: string, failures: nat)
    ensures FirstDelay(reason) <= Base(reason, failures) <= MAX_BACKOFF
  {
    if failures > 1 {
      PowerOfTwoMonotone(0, failures - 1);
      Scaled(FirstDelay(reason), 1, PowerOfTwo(failures - 1));
    }
  }

  lemma Scaled(d: nat, a: nat, b: nat)
    requires a <= b
    ensures d * a <= d * b
  {
  }

  // More failures of one kind never shorten the rest before jitter.
  lemma BaseMonotone(reason: string, fewer: nat, more: nat)
    requires fewer <= more
    ensures Base(reason, fewer) <= Base(reason, more)
  {
    BaseBounds(reason, more);
    if fewer > 1 {
      PowerOfTwoMonotone(fewer - 1, more - 1);
      Scaled(FirstDelay(reason), PowerOfTwo(fewer - 1), PowerOfTwo(more - 1));
    }
  }

  lemma DelayBounds(reason: string, failures: nat, upstream: int, jitter: nat -> nat)
    ensures ROUTE_COOLDOWN <= Delay(reason, failures, upstream, jitter) <= DAY
    ensures Delay(reason, failures, upstream, jitter) >= Min(DAY, upstream)
    ensures 30_000_000_000 <= Delay(reason, failures, upstream, jitter) <= 86_400_000_000_000
    ensures reason == "rate_limited" && failures > 10 ==> Delay(reason, failures, upstream, jitter) == 86_400_000_000_000
  {
    BaseBounds(reason, failures);
  }

  // The rest before jitter: half a minute, or five for exhausted accounts, doubled
  // with each further failure up to half an hour.
  lemma BaseMeans(reason: string, failures: nat)
    ensures failures <= 1 ==>
              Base(reason, failures)
              == (if reason in {"insufficient_balance", "quota_exhausted", "provider_access_denied", "fair_use_throttled"}
                  then 300_000_000_000 else 30_000_000_000)
    ensures reason == "unclassified_stream_error" ==> Base(reason, failures) == 30_000_000_000
    ensures failures >= 1 && reason != "unclassified_stream_error" ==>
              Base(reason, failures + 1) == Min(1_800_000_000_000, 2 * Base(reason, failures))
  {
    if failures >= 1 && reason != "unclassified_stream_error" {
      assert PowerOfTwo(failures) == 2 * PowerOfTwo(failures - 1);
      Doubled(FirstDelay(reason), failures - 1);
      StartsOnce(FirstDelay(reason));
    }
  }

  // A full day is for rate limits only: whatever else failed, however often, rests
  // an hour at most unless upstream asks for more, with no more jitter than base.
  lemma UsualDelay(reason: string, failures: nat, upstream: int, jitter: nat -> nat)
    requires reason != "rate_limited" || failures <= 10
    requires jitter(Base(reason, failures)) <= Base(reason, failures)
    ensures Delay(reason, failures, upstream, jitter) <= Max(3_600_000_000_000, upstream)
  {
    BaseBounds(reason, failures);
  }

  lemma StartsOnce(d: nat)
    ensures d * PowerOfTwo(0) == d
  {
  }

  lemma Doubled(d: nat, n: nat)
    ensures d * PowerOfTwo(n) * 2 == d * PowerOfTwo(n + 1)
  {
    assert PowerOfTwo(n + 1) == 2 * PowerOfTwo(n);
  }

  method BoundedRecoveryBackoff(reason: string, failures: nat, upstream: int, jitter: nat -> nat) returns (delay: nat)
    ensures delay == Delay(reason, failures, upstream, jitter)
    ensures ROUTE_COOLDOWN <= delay <= DAY
  {
    DelayBounds(reason, failures, upstream, jitter);
    if reason == "rate_limited" && failures > 10 {
      return DAY;
    }
    hide PowerOfTwo;
    var base := FirstDelay(reason);
    StartsOnce(base);
    if reason != "unclassified_stream_error" {
      var n := 1;
      while n < failures && base < MAX_BACKOFF
        invariant 1 <= n && (failures >= 1 ==> n <= failures) && (failures == 0 ==> n == 1)
        invariant base == FirstDelay(reason) * PowerOfTwo(n - 1)
      {
        Doubled(FirstDelay(reason), n - 1);
        base := base * 2;
        n := n + 1;
      }
      if 1 < failures {
        PowerOfTwoMonotone(n - 1, failures - 1);
        Scaled(FirstDelay(reason), PowerOfTwo(n - 1), PowerOfTwo(failures - 1));
      }
    }
    if base > MAX_BACKOFF {
      base := MAX_BACKOFF;
    }
    var chosen: int := base + jitter(base);
    if upstream > chosen {
      chosen := upstream;
    }
    if chosen > DAY {
      chosen := DAY;
    }
    delay := chosen;
  }
}
