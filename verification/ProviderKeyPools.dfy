// The key pool object (internal/gateway/provider_key_pool.go): fixed-size arrays
// updated under the pool's lock, and the wait it shares with other pools. Every
// method is shown to be one of the steps of the KeyPool module.
module ProviderKeyPools {
  import opened Basics
  import opened RecoveryBackoff
  import opened KeyPool

  class RetryState {
    var until: Time
    var version: nat
    var probe: Option<Lease>

    ghost function View(): Retry
      reads this
    {
      Retry(until, version, probe)
    }

    constructor ()
      ensures View() == Retry(0, 0, None)
    {
      until, version, probe := 0, 0, None;
    }
  }

  ghost predicate Earlier(cooldowns: seq<Time>, start: nat, count: nat, now: Time, earliest: Time)
    requires cooldowns != []
  {
    && (forall o {:trigger KeyAt(start, o, |cooldowns|)} :: 0 <= o < count && cooldowns[KeyAt(start, o, |cooldowns|)] > now ==>
          0 < earliest <= cooldowns[KeyAt(start, o, |cooldowns|)])
    && (earliest != 0 ==> earliest > now && exists i :: 0 <= i < |cooldowns| && cooldowns[i] == earliest)
  }

  ghost predicate PartlyCleared(cooldowns: seq<Time>, current: seq<Time>, start: nat, count: nat, now: Time)
    requires cooldowns != [] && |current| == |cooldowns|
  {
    && (forall i :: 0 <= i < |cooldowns| ==> current[i] == cooldowns[i] || (current[i] == 0 && cooldowns[i] <= now))
    && (forall o {:trigger KeyAt(start, o, |cooldowns|)} :: 0 <= o < count && cooldowns[KeyAt(start, o, |cooldowns|)] <= now ==>
          current[KeyAt(start, o, |cooldowns|)] == 0)
  }

  lemma PartlyClearedStep(cooldowns: seq<Time>, current: seq<Time>, start: nat, count: nat, now: Time)
    requires cooldowns != [] && |current| == |cooldowns| && PartlyCleared(cooldowns, current, start, count, now)
    ensures var k := KeyAt(start, count, |cooldowns|);
            PartlyCleared(cooldowns, if cooldowns[k] > now then current else current[k := 0], start, count + 1, now)
    ensures current[KeyAt(start, count, |cooldowns|)] > now <==> cooldowns[KeyAt(start, count, |cooldowns|)] > now
  {
  }

  lemma EarlierStep(cooldowns: seq<Time>, start: nat, count: nat, now: Time, earliest: Time)
    requires cooldowns != [] && Earlier(cooldowns, start, count, now, earliest)
    ensures var until := cooldowns[KeyAt(start, count, |cooldowns|)];
            Earlier(cooldowns, start, count + 1, now,
                    if until > now && (earliest == 0 || until < earliest) then until else earliest)
  {
  }

  lemma RotationDone(cooldowns: seq<Time>, current: seq<Time>, start: nat, now: Time, earliest: Time)
    requires cooldowns != [] && |current| == |cooldowns| && start < |cooldowns|
    requires PartlyCleared(cooldowns, current, start, |cooldowns|, now)
    requires Earlier(cooldowns, start, |cooldowns|, now, earliest)
    ensures current == Cleared(cooldowns, now)
    ensures Usable(cooldowns, start, |cooldowns|, now) == [] ==>
              earliest > now && Wait(cooldowns, now) == earliest - now
  {
    var n := |cooldowns|;
    forall i | 0 <= i < n ensures current[i] == Cleared(cooldowns, now)[i] && (cooldowns[i] > now ==> 0 < earliest <= cooldowns[i]) {
      RotationReaches(start, n, i);
      var o :| 0 <= o < n && KeyAt(start, o, n) == i;
    }
    NoneUsable(cooldowns, start, now);
    if Usable(cooldowns, start, n, now) == [] {
      assert cooldowns[0] > now;
      EarliestIsLeast(cooldowns);
    }
  }

  class ProviderKeyPool {
    const retry: RetryState
    const cooldowns: array<Time>
    const failures: array<nat>
    const versions: array<nat>
    var next: nat
    var streak: nat
    var version: nat
    var providerUntil: Time
    var probe: Option<Lease>

    ghost predicate Valid()
      reads this, cooldowns, failures, versions
    {
      && failures.Length == cooldowns.Length && versions.Length == cooldowns.Length
      && failures != cooldowns && versions != cooldowns && versions != failures
    }

    ghost function View(): Pool
      reads this, cooldowns, failures, versions
    {
      Pool(next, cooldowns[..], failures[..], versions[..], streak, version, providerUntil, probe)
    }

    // Pools over the same endpoint are given the same shared state.
    constructor (keys: nat, shared: RetryState)
      ensures Valid() && View() == NewPool(keys) && retry == shared
      ensures fresh(cooldowns) && fresh(failures) && fresh(versions)
    {
      retry := shared;
      cooldowns := new Time[keys](i => 0);
      failures := new nat[keys](i => 0);
      versions := new nat[keys](i => 0);
      next, streak, version, providerUntil, probe := 0, 0, 0, 0, None;
      new;
      var zeros := NewPool(keys).cooldowns;
      assert cooldowns[..] == zeros && failures[..] == zeros && versions[..] == zeros;
    }

    method CandidatesAt(now: Time) returns (keys: seq<nat>, wait: nat)
      requires Valid()
      modifies this`next, cooldowns
      ensures Valid() && Choice(View(), keys, wait) == Candidates(old(View()), retry.View(), now)
    {
      hide Usable, Earlier, PartlyCleared, Wait;
      ghost var was := cooldowns[..];
      var n := cooldowns.Length;
      if n == 0 {
        return [], 0;
      }
      if retry.until > now {
        return [], retry.until - now;
      }
      var start := next % n;
      next := (start + 1) % n;
      keys := [];
      var earliest: Time := 0;
      RotationStarts(was, start, now);
      var offset := 0;
      while offset < n
        invariant 0 <= offset <= n && next == (start + 1) % n && keys == Usable(was, start, offset, now)
        invariant PartlyCleared(was, cooldowns[..], start, offset, now)
        invariant Earlier(was, start, offset, now, earliest)
      {
        var index := (start + offset) % n;
        assert index == KeyAt(start, offset, n);
        PartlyClearedStep(was, cooldowns[..], start, offset, now);
        EarlierStep(was, start, offset, now, earliest);
        UsableStep(was, start, offset, now);
        VisitedIsUntouched(was, cooldowns[..], start, offset, now);
        var until := cooldowns[index];
        if until > now {
          if earliest == 0 || until < earliest {
            earliest := until;
          }
        } else {
          ghost var before := cooldowns[..];
          cooldowns[index] := 0;
          assert cooldowns[..] == before[index := 0];
          keys := keys + [index];
        }
        offset := offset + 1;
      }
      RotationDone(was, cooldowns[..], start, now, earliest);
      WaitWhenUsable(was, start, now, earliest);
      if |keys| > 0 || earliest == 0 {
        wait := 0;
      } else {
        wait := earliest - now;
      }
    }

    method CooldownAt(index: int, delay: int, now: Time)
      requires Valid()
      modifies cooldowns
      ensures Valid() && View() == Cooled(old(View()), index, delay, now)
    {
      if index < 0 || index >= cooldowns.Length {
        return;
      }
      var clamped := ClampDelay(delay);
      var until := now + clamped;
      if until > cooldowns[index] {
        cooldowns[index] := until;
      }
      assert View().cooldowns == Cooled(old(View()), index, delay, now).cooldowns;
    }

    method CooldownAll(delay: int, now: Time)
      requires Valid()
      modifies cooldowns
      ensures Valid() && View() == CooledAll(old(View()), delay, now)
    {
      var clamped := ClampDelay(delay);
      RaiseAll(now + clamped);
    }

    method RaiseAll(until: Time)
      requires Valid()
      modifies cooldowns
      ensures Valid() && View() == old(View()).(cooldowns := Later(old(cooldowns[..]), until))
    {
      var index := 0;
      while index < cooldowns.Length
        invariant 0 <= index <= cooldowns.Length
        invariant forall i :: 0 <= i < index ==> cooldowns[i] == Later(old(cooldowns[..]), until)[i]
        invariant forall i :: index <= i < cooldowns.Length ==> cooldowns[i] == old(cooldowns[i])
      {
        if until > cooldowns[index] {
          cooldowns[index] := until;
        }
        index := index + 1;
      }
      assert cooldowns[..] == Later(old(cooldowns[..]), until);
    }

    method CooldownWaitLocked(now: Time) returns (wait: nat)
      requires Valid()
      ensures wait == Wait(cooldowns[..], now)
    {
      var earliest: Time := 0;
      var index := 0;
      while index < cooldowns.Length
        invariant 0 <= index <= cooldowns.Length
        invariant AllCooling(cooldowns[..index], now)
        invariant earliest == if index == 0 then 0 else Earliest(cooldowns[..index])
      {
        var until := cooldowns[index];
        assert cooldowns[..index + 1][..index] == cooldowns[..index];
        if until <= now {
          assert cooldowns[..][index] <= now;
          return 0;
        }
        if index > 0 { EarliestIsLeast(cooldowns[..index]); }
        if earliest == 0 || until < earliest {
          earliest := until;
        }
        index := index + 1;
      }
      assert cooldowns[..cooldowns.Length] == cooldowns[..];
      if earliest == 0 {
        if cooldowns.Length > 0 { EarliestIsLeast(cooldowns[..]); }
        return 0;
      }
      EarliestIsLeast(cooldowns[..]);
      wait := earliest - now;
    }

    // The wait a caller is told: a probe in progress counts as one second.
    method CooldownWaitAt(now: Time) returns (wait: nat)
      requires Valid()
      ensures wait == if probe.Some? || retry.probe.Some? then SECOND
                      else Max(Wait(cooldowns[..], now), Max(Apart(providerUntil, now), Apart(retry.until, now)))
    {
      hide Wait;
      if probe.Some? || retry.probe.Some? {
        return SECOND;
      }
      wait := CooldownWaitLocked(now);
      if providerUntil > now && providerUntil - now > wait {
        wait := providerUntil - now;
      }
      if retry.until > now && retry.until - now > wait {
        wait := retry.until - now;
      }
    }

    method CandidateStateAt(index: int, now: Time) returns (ready: bool, delay: nat, seen: Observation)
      requires Valid()
      modifies cooldowns
      ensures Valid() && Readiness(View(), ready, delay, seen) == KeyPool.Ready(old(View()), retry.View(), index, now)
    {
      if index < 0 || index >= cooldowns.Length {
        return false, 0, Observation(0, 0, 0);
      }
      var until := cooldowns[index];
      if retry.until > until {
        until := retry.until;
      }
      seen := Observation(versions[index], version, retry.version);
      if until > now {
        return false, until - now, seen;
      }
      cooldowns[index] := 0;
      assert cooldowns[..] == old(cooldowns[..])[index := 0];
      ready, delay := true, 0;
    }

    method HoldProviderUntil(until: Time) returns (serverUntil: Time)
      requires Valid()
      modifies this`version, retry`version, retry`until
      ensures Valid() && Joint(View(), retry.View()) == Held(old(View()), old(retry.View()), until)
      ensures serverUntil == if until == 0 then 0 else retry.until
    {
      if until == 0 {
        return 0;
      }
      version := Increment(version);
      retry.version := Increment(retry.version);
      if until > retry.until {
        retry.until := until;
      }
      serverUntil := retry.until;
    }

    method CoolKey(index: nat, delay: nat, now: Time)
      requires Valid() && index < cooldowns.Length
      modifies cooldowns
      ensures Valid() && cooldowns[..] == old(cooldowns[..])[index := Max(old(cooldowns[index]), now + delay)]
    {
      if now + delay > cooldowns[index] {
        cooldowns[index] := now + delay;
      }
      assert cooldowns[..] == old(cooldowns[..])[index := Max(old(cooldowns[index]), now + delay)];
    }

    method CountLimit(index: nat)
      requires Valid() && index < cooldowns.Length
      modifies this`streak, this`version, failures, versions
      ensures Valid() && failures[..] == old(failures[..])[index := IncrementFailures(old(failures[index]))]
      ensures versions[..] == old(versions[..])[index := Increment(old(versions[index]))]
      ensures streak == IncrementFailures(old(streak)) && version == Increment(old(version))
    {
      failures[index] := IncrementFailures(failures[index]);
      streak := IncrementFailures(streak);
      versions[index] := Increment(versions[index]);
      version := Increment(version);
      assert failures[..] == old(failures[..])[index := IncrementFailures(old(failures[index]))];
      assert versions[..] == old(versions[..])[index := Increment(old(versions[index]))];
    }

    // The provider waits for its first key, or for a day after a long streak.
    method CoolProvider(now: Time) returns (delay: nat)
      requires Valid()
      modifies this`providerUntil, cooldowns
      ensures Valid()
      ensures var wait := Wait(old(cooldowns[..]), now);
              var silent := wait > 0 && streak > 10;
              && delay == (if silent then DAY else wait)
              && cooldowns[..] == (if silent then Later(old(cooldowns[..]), now + DAY) else old(cooldowns[..]))
              && providerUntil == if delay > 0 then now + delay else old(providerUntil)
    {
      hide Wait, Later;
      delay := CooldownWaitLocked(now);
      if delay > 0 && streak > 10 {
        RaiseAll(now + DAY);
        delay := DAY;
      }
      if delay > 0 {
        providerUntil := now + delay;
      }
    }

    method RateLimitedAt(index: int, upstream: int, provided: bool, now: Time, jitter: nat -> nat)
      returns (keyDelay: int, providerDelay: nat, newStreak: nat)
      requires Valid()
      modifies this`streak, this`version, this`providerUntil, cooldowns, failures, versions
      ensures Valid()
      ensures if 0 <= index < cooldowns.Length
              then Limit(View(), keyDelay, providerDelay) == RateLimited(old(View()), index, upstream, provided, now, jitter)
                   && newStreak == streak
              else View() == old(View()) && keyDelay == providerDelay == newStreak == 0
    {
      hide Wait, Delay, KeyDelay, Later;
      if index < 0 || index >= cooldowns.Length {
        return 0, 0, 0;
      }
      CountLimit(index);
      var delay := DelayForKey(failures[index], upstream, provided, jitter);
      CoolKey(index, delay, now);
      keyDelay := cooldowns[index] - now;
      providerDelay := CoolProvider(now);
      newStreak := streak;
    }

    method RateSucceeded(index: int, seen: Observation) returns (cleared: bool)
      requires Valid()
      modifies this`streak, this`providerUntil, failures, retry`until, retry`version
      ensures Valid() && (Joint(View(), retry.View()), cleared) == Succeeded(old(View()), old(retry.View()), index, seen)
    {
      if index < 0 || index >= cooldowns.Length {
        return false;
      }
      if versions[index] == seen.key {
        failures[index] := 0;
        assert failures[..] == old(failures[..])[index := 0];
      }
      if version != seen.pool || retry.version != seen.server {
        return false;
      }
      streak, providerUntil := 0, 0;
      if retry.until != 0 {
        retry.until := 0;
        retry.version := Increment(retry.version);
      }
      cleared := true;
    }

    // `id` is the identity of the lease that is allocated if one is granted.
    method BeginRateRecovery(id: nat, now: Time) returns (admission: Admission)
      requires Valid()
      modifies this`probe, retry`probe
      ensures Valid() && (Joint(View(), retry.View()), admission) == Begun(old(View()), old(retry.View()), id, now)
    {
      if probe.Some? || retry.probe.Some? {
        return InProgress;
      }
      if (streak == 0 || providerUntil == 0) && retry.until == 0 {
        return NoLease;
      }
      var until := providerUntil;
      if retry.until > until {
        until := retry.until;
      }
      if until > now {
        return Cooling(until, retry.until > now);
      }
      var lease := Lease(id, retry.until != 0);
      probe := Some(lease);
      if lease.server {
        retry.probe := Some(lease);
      }
      admission := Granted(lease);
    }

    method FinishRateRecovery(lease: Lease)
      requires Valid()
      modifies this`probe, retry`probe
      ensures Valid() && Joint(View(), retry.View()) == Finished(old(View()), old(retry.View()), lease)
    {
      if probe == Some(lease) {
        probe := None;
        if lease.server && retry.probe == Some(lease) {
          retry.probe := None;
        }
      }
    }
  }

  method DelayForKey(failures: nat, upstream: int, provided: bool, jitter: nat -> nat) returns (delay: nat)
    ensures delay == KeyDelay(failures, upstream, provided, jitter)
  {
    hide Delay;
    var raw := upstream;
    if !provided {
      raw := BoundedRecoveryBackoff("rate_limited", failures, upstream, jitter);
    }
    if raw < SECOND {
      raw := SECOND;
    }
    if raw > DAY || failures > 10 {
      raw := DAY;
    }
    delay := raw;
  }

  method ClampDelay(delay: int) returns (clamped: nat)
    ensures clamped == Clamped(delay)
  {
    var d := delay;
    if d < SECOND {
      d := SECOND;
    }
    if d > DAY {
      d := DAY;
    }
    clamped := d;
  }

  lemma RotationStarts(cooldowns: seq<Time>, start: nat, now: Time)
    requires cooldowns != []
    ensures Usable(cooldowns, start, 0, now) == [] && PartlyCleared(cooldowns, cooldowns, start, 0, now)
    ensures Earlier(cooldowns, start, 0, now, 0)
  {
  }

  lemma UsableStep(cooldowns: seq<Time>, start: nat, count: nat, now: Time)
    requires cooldowns != []
    ensures var k := KeyAt(start, count, |cooldowns|);
            Usable(cooldowns, start, count + 1, now)
            == Usable(cooldowns, start, count, now) + if cooldowns[k] > now then [] else [k]
  {
  }

  lemma VisitedIsUntouched(cooldowns: seq<Time>, current: seq<Time>, start: nat, count: nat, now: Time)
    requires cooldowns != [] && |current| == |cooldowns| && PartlyCleared(cooldowns, current, start, count, now)
    ensures var k := KeyAt(start, count, |cooldowns|);
            cooldowns[k] > now ==> current[k] == cooldowns[k]
  {
  }

  lemma WaitWhenUsable(cooldowns: seq<Time>, start: nat, now: Time, earliest: Time)
    requires cooldowns != [] && start < |cooldowns|
    ensures Usable(cooldowns, start, |cooldowns|, now) == [] && earliest == 0 ==> AllCooling(cooldowns, now)
  {
    NoneUsable(cooldowns, start, now);
  }
}
