// internal/gateway/provider_key_pool.go and provider_retry_after.go: the keys of
// one provider profile, and the server wait that several profiles share. Each
// locked method is one function from the pool and the shared state to both.
module KeyPool {
  import opened Basics
  import opened RecoveryBackoff

  const MAX_VERSION: nat := 0xFFFF_FFFF_FFFF_FFFF

  // A recovery lease is known by its identity; `server` says whether it was
  // also granted the claim on the shared state.
  datatype Lease = Lease(id: nat, server: bool)

  datatype Retry = Retry(until: Time, version: nat, probe: Option<Lease>)

  datatype Pool = Pool(
    next: nat, cooldowns: seq<Time>, failures: seq<nat>, versions: seq<nat>,
    streak: nat, version: nat, providerUntil: Time, probe: Option<Lease>)

  datatype Observation = Observation(key: nat, pool: nat, server: nat)

  function Increment(v: nat): nat {
    if v < MAX_VERSION then v + 1 else v
  }

  function IncrementFailures(n: nat): nat {
    if n < MAX_FAILURES then n + 1 else n
  }

  predicate WellFormed(p: Pool) {
    |p.failures| == |p.cooldowns| && |p.versions| == |p.cooldowns|
  }

  function NewPool(keys: nat): (p: Pool)
    ensures WellFormed(p)
  {
    Pool(0, seq(keys, i => 0), seq(keys, i => 0), seq(keys, i => 0), 0, 0, 0, None)
  }

  // ----- Waiting for a key -----

  function Earliest(cooldowns: seq<Time>): Time
    requires cooldowns != []
  {
    var n := |cooldowns| - 1;
    if n == 0 then cooldowns[0] else Min(Earliest(cooldowns[..n]), cooldowns[n])
  }

  predicate AllCooling(cooldowns: seq<Time>, now: Time) {
    forall i :: 0 <= i < |cooldowns| ==> cooldowns[i] > now
  }

  lemma {:induction false} EarliestIsLeast(cooldowns: seq<Time>)
    requires cooldowns != []
    ensures forall i :: 0 <= i < |cooldowns| ==> Earliest(cooldowns) <= cooldowns[i]
    ensures exists i :: 0 <= i < |cooldowns| && Earliest(cooldowns) == cooldowns[i]
  {
    var n := |cooldowns| - 1;
    if n == 0 {
      assert Earliest(cooldowns) == cooldowns[0];
    } else {
      var front := cooldowns[..n];
      EarliestIsLeast(front);
      var k :| 0 <= k < |front| && Earliest(front) == front[k];
      assert Earliest(cooldowns) == cooldowns[k] || Earliest(cooldowns) == cooldowns[n];
      forall i | 0 <= i < |cooldowns| ensures Earliest(cooldowns) <= cooldowns[i] {
        if i < n { assert front[i] == cooldowns[i]; }
      }
    }
  }

  // How long until some key may be used: zero when one may be used now.
  function Wait(cooldowns: seq<Time>, now: Time): nat {
    if cooldowns != [] && AllCooling(cooldowns, now) then Apart(Earliest(cooldowns), now) else 0
  }

  function Apart(later: Time, now: Time): nat {
    if later > now then later - now else 0
  }

  lemma WaitIsPositiveWhenAllCool(cooldowns: seq<Time>, now: Time)
    ensures Wait(cooldowns, now) > 0 <==> cooldowns != [] && AllCooling(cooldowns, now)
    ensures Wait(cooldowns, now) > 0 ==> now + Wait(cooldowns, now) == Earliest(cooldowns)
  {
    if cooldowns != [] {
      EarliestIsLeast(cooldowns);
    }
  }

  // ----- Choosing candidates -----

  function KeyAt(start: nat, offset: nat, n: nat): nat
    requires n > 0
  {
    (start + offset) % n
  }

  // The usable keys among the first `count` ones of the rotation from `start`.
  function Usable(cooldowns: seq<Time>, start: nat, count: nat, now: Time): seq<nat>
    requires cooldowns != []
  {
    if count == 0 then []
    else
      var k := KeyAt(start, count - 1, |cooldowns|);
      Usable(cooldowns, start, count - 1, now) + if cooldowns[k] > now then [] else [k]
  }

  function Cleared(cooldowns: seq<Time>, now: Time): seq<Time> {
    seq(|cooldowns|, i requires 0 <= i < |cooldowns| => if cooldowns[i] > now then cooldowns[i] else 0)
  }

  datatype Choice = Choice(pool: Pool, keys: seq<nat>, wait: nat)

  function Candidates(p: Pool, r: Retry, now: Time): Choice {
    var n := |p.cooldowns|;
    if n == 0 then Choice(p, [], 0)
    else if r.until > now then Choice(p, [], r.until - now)
    else
      var start := p.next % n;
      var keys := Usable(p.cooldowns, start, n, now);
      Choice(p.(next := (start + 1) % n, cooldowns := Cleared(p.cooldowns, now)), keys,
             if keys == [] then Wait(p.cooldowns, now) else 0)
  }

  lemma {:induction false} UsableMembers(cooldowns: seq<Time>, start: nat, count: nat, now: Time, k: nat)
    requires cooldowns != []
    ensures k in Usable(cooldowns, start, count, now) <==>
      exists o :: 0 <= o < count && KeyAt(start, o, |cooldowns|) == k && cooldowns[k] <= now
  {
    if count > 0 {
      UsableMembers(cooldowns, start, count - 1, now, k);
      var last := KeyAt(start, count - 1, |cooldowns|);
      if k == last && cooldowns[last] <= now {
        assert KeyAt(start, count - 1, |cooldowns|) == k;
      }
    }
  }

  lemma WrapOnce(x: nat, n: nat)
    requires x < 2 * n
    ensures x % n == if x < n then x else x - n
  {
    var q := x / n;
    assert x == n * q + x % n;
    assert q >= 2 ==> n * q >= n * 2;
    assert q == 0 ==> n * q == 0;
  }

  lemma RotationReaches(start: nat, n: nat, k: nat)
    requires start < n && k < n
    ensures exists o :: 0 <= o < n && KeyAt(start, o, n) == k
  {
    var o := if k >= start then k - start else k + n - start;
    WrapOnce(start + o, n);
    assert KeyAt(start, o, n) == k;
  }

  // Candidates are exactly the keys that are not cooling, none while the server
  // asked to wait; a key that leads once follows all others the next time.
  lemma CandidatesAreUsableKeys(p: Pool, r: Retry, now: Time, k: nat)
    requires k < |p.cooldowns|
    ensures var c := Candidates(p, r, now);
            && (k in c.keys <==> r.until <= now && p.cooldowns[k] <= now)
            && (c.keys == [] && r.until <= now ==> now + c.wait == Earliest(p.cooldowns) && c.wait > 0)
            && (r.until > now ==> now + c.wait == r.until && c.pool == p)
            && (c.keys != [] ==> c.wait == 0)
            && (c.keys != [] && p.cooldowns[p.next % |p.cooldowns|] <= now ==> c.keys[0] == p.next % |p.cooldowns|)
  {
    var n := |p.cooldowns|;
    var start := p.next % n;
    if r.until <= now {
      UsableMembers(p.cooldowns, start, n, now, k);
      RotationReaches(start, n, k);
      NoneUsable(p.cooldowns, start, now);
      WaitIsPositiveWhenAllCool(p.cooldowns, now);
      FirstUsable(p.cooldowns, start, n, now);
    }
  }

  lemma NoneUsable(cooldowns: seq<Time>, start: nat, now: Time)
    requires cooldowns != [] && start < |cooldowns|
    ensures Usable(cooldowns, start, |cooldowns|, now) == [] ==> AllCooling(cooldowns, now)
  {
    if Usable(cooldowns, start, |cooldowns|, now) == [] {
      forall k | 0 <= k < |cooldowns| ensures cooldowns[k] > now {
        UsableMembers(cooldowns, start, |cooldowns|, now, k);
        RotationReaches(start, |cooldowns|, k);
      }
    }
  }

  lemma {:induction false} FirstUsable(cooldowns: seq<Time>, start: nat, count: nat, now: Time)
    requires cooldowns != [] && start < |cooldowns| && 0 < count
    ensures cooldowns[start] <= now ==>
              Usable(cooldowns, start, count, now) != [] && Usable(cooldowns, start, count, now)[0] == start
  {
    WrapOnce(start, |cooldowns|);
    assert KeyAt(start, 0, |cooldowns|) == start;
    hide KeyAt;
    if count == 1 {
      assert Usable(cooldowns, start, 0, now) == [];
    } else {
      FirstUsable(cooldowns, start, count - 1, now);
    }
  }

  lemma {:induction false} UsableOnce(cooldowns: seq<Time>, start: nat, count: nat, now: Time)
    requires cooldowns != [] && start < |cooldowns| && count <= |cooldowns|
    ensures var keys := Usable(cooldowns, start, count, now);
            forall i, j :: 0 <= i < j < |keys| ==> keys[i] != keys[j]
  {
    if count > 0 {
      UsableOnce(cooldowns, start, count - 1, now);
      var k := KeyAt(start, count - 1, |cooldowns|);
      UsableMembers(cooldowns, start, count - 1, now, k);
      forall o | 0 <= o < count - 1 ensures KeyAt(start, o, |cooldowns|) != k {
        RotationIsInjective(start, o, count - 1, |cooldowns|);
      }
    }
  }

  lemma RotationIsInjective(start: nat, o: nat, q: nat, n: nat)
    requires start < n && o < q < n
    ensures KeyAt(start, o, n) != KeyAt(start, q, n)
  {
    WrapOnce(start + o, n);
    WrapOnce(start + q, n);
  }

  // Each candidate is listed once, and the rotation moves on by one key exactly
  // when candidates were looked for.
  lemma CandidatesRotate(p: Pool, r: Retry, now: Time)
    requires p.cooldowns != []
    ensures var c := Candidates(p, r, now);
            && (forall i, j :: 0 <= i < j < |c.keys| ==> c.keys[i] != c.keys[j])
            && c.pool.next == (if r.until > now then p.next else (p.next % |p.cooldowns| + 1) % |p.cooldowns|)
            && (forall k :: 0 <= k < |p.cooldowns| && r.until <= now ==>
                  c.pool.cooldowns[k] == if p.cooldowns[k] > now then p.cooldowns[k] else 0)
  {
    var n := |p.cooldowns|;
    UsableOnce(p.cooldowns, p.next % n, n, now);
    hide Wait;
    if r.until <= now {
      assert Candidates(p, r, now).keys == Usable(p.cooldowns, p.next % n, n, now);
      assert Candidates(p, r, now).pool.cooldowns == Cleared(p.cooldowns, now);
    }
  }

  // ----- Cooling keys -----

  function Clamped(delay: int): nat {
    Min(DAY, Max(SECOND, delay))
  }

  function Later(cooldowns: seq<Time>, until: Time): seq<Time> {
    seq(|cooldowns|, i requires 0 <= i < |cooldowns| => if until > cooldowns[i] then until else cooldowns[i])
  }

  function Cooled(p: Pool, k: int, delay: int, now: Time): Pool {
    if 0 <= k < |p.cooldowns| then p.(cooldowns := p.cooldowns[k := Max(p.cooldowns[k], now + Clamped(delay))]) else p
  }

  function CooledAll(p: Pool, delay: int, now: Time): Pool {
    p.(cooldowns := Later(p.cooldowns, now + Clamped(delay)))
  }

  // ----- Rate limits -----

  datatype Limit = Limit(pool: Pool, keyDelay: int, providerDelay: nat)

  function KeyDelay(failures: nat, upstream: int, provided: bool, jitter: nat -> nat): nat {
    var raw := if provided then upstream else Delay("rate_limited", failures, upstream, jitter);
    if failures > 10 then DAY else Clamped(raw)
  }

  // The key that was rejected cools; when none is left, so does the provider,
  // and after ten rejections in a row it does so for a day.
  function RateLimited(p: Pool, k: nat, upstream: int, provided: bool, now: Time, jitter: nat -> nat): Limit
    requires WellFormed(p) && k < |p.cooldowns|
  {
    var failures := p.failures[k := IncrementFailures(p.failures[k])];
    var streak := IncrementFailures(p.streak);
    var cooldowns := p.cooldowns[k := Max(p.cooldowns[k], now + KeyDelay(failures[k], upstream, provided, jitter))];
    var wait := Wait(cooldowns, now);
    var silent := wait > 0 && streak > 10;
    var delay := if silent then DAY else wait;
    Limit(p.(cooldowns := if silent then Later(cooldowns, now + DAY) else cooldowns,
             failures := failures, streak := streak,
             versions := p.versions[k := Increment(p.versions[k])], version := Increment(p.version),
             providerUntil := if delay > 0 then now + delay else p.providerUntil),
          cooldowns[k] - now, delay)
  }

  predicate WithinADay(cooldowns: seq<Time>, now: Time) {
    forall i :: 0 <= i < |cooldowns| ==> cooldowns[i] <= now + DAY
  }

  lemma KeyDelayBounds(failures: nat, upstream: int, provided: bool, jitter: nat -> nat)
    ensures SECOND <= KeyDelay(failures, upstream, provided, jitter) <= DAY
    ensures provided && failures <= 10 ==> KeyDelay(failures, upstream, provided, jitter) == Clamped(upstream)
  {
  }

  // The reported provider delay is exact: positive when and only when every
  // key cools, and then the distance to the first key that will be usable.
  lemma ProviderDelayIsExact(p: Pool, k: nat, upstream: int, provided: bool, now: Time, jitter: nat -> nat)
    requires WellFormed(p) && k < |p.cooldowns| && WithinADay(p.cooldowns, now)
    ensures var l := RateLimited(p, k, upstream, provided, now, jitter);
            && (l.providerDelay > 0 <==> AllCooling(l.pool.cooldowns, now))
            && (l.providerDelay > 0 ==> now + l.providerDelay == Earliest(l.pool.cooldowns) == l.pool.providerUntil)
            && (l.providerDelay == 0 ==> l.pool.providerUntil == p.providerUntil)
            && WithinADay(l.pool.cooldowns, now)
            && SECOND <= l.keyDelay <= DAY && now + l.keyDelay <= l.pool.cooldowns[k]
            && (l.pool.streak <= 10 || l.providerDelay == 0 ==> now + l.keyDelay == l.pool.cooldowns[k])
  {
    hide Delay;
    var l := RateLimited(p, k, upstream, provided, now, jitter);
    var failures := p.failures[k := IncrementFailures(p.failures[k])];
    KeyDelayBounds(failures[k], upstream, provided, jitter);
    hide KeyDelay;
    var cooldowns := p.cooldowns[k := Max(p.cooldowns[k], now + KeyDelay(failures[k], upstream, provided, jitter))];
    WaitIsPositiveWhenAllCool(cooldowns, now);
    if l.providerDelay > 0 && l.pool.streak > 10 {
      EarliestIsLeast(l.pool.cooldowns);
      assert forall i :: 0 <= i < |cooldowns| ==> l.pool.cooldowns[i] == now + DAY;
    }
  }

  // The rejections after which a key rests longer than its delay says, told from
  // the pool before the call: ten rejections in a row went before, every other
  // key cools, and neither the key's own cooldown nor its new delay is a day.
  predicate ReportsShort(p: Pool, k: nat, upstream: int, provided: bool, now: Time, jitter: nat -> nat)
    requires WellFormed(p) && k < |p.cooldowns|
  {
    && p.streak >= 10
    && (forall j :: 0 <= j < |p.cooldowns| && j != k ==> p.cooldowns[j] > now)
    && p.cooldowns[k] < now + DAY
    && KeyDelay(IncrementFailures(p.failures[k]), upstream, provided, jitter) < DAY
  }

  // The key delay that is reported is what the key really rests, except then;
  // and then it rests a day.
  lemma KeyDelayIsExact(p: Pool, k: nat, upstream: int, provided: bool, now: Time, jitter: nat -> nat)
    requires WellFormed(p) && k < |p.cooldowns| && WithinADay(p.cooldowns, now)
    ensures var l := RateLimited(p, k, upstream, provided, now, jitter);
            && (now + l.keyDelay == l.pool.cooldowns[k] <==> !ReportsShort(p, k, upstream, provided, now, jitter))
            && (ReportsShort(p, k, upstream, provided, now, jitter) ==> l.pool.cooldowns[k] == now + DAY)
  {
    var rest := KeyDelay(IncrementFailures(p.failures[k]), upstream, provided, jitter);
    KeyDelayBounds(IncrementFailures(p.failures[k]), upstream, provided, jitter);
    hide Delay, KeyDelay, Earliest;
    var cooldowns := p.cooldowns[k := Max(p.cooldowns[k], now + rest)];
    WaitIsPositiveWhenAllCool(cooldowns, now);
    assert AllCooling(cooldowns, now) <==> forall j :: 0 <= j < |p.cooldowns| && j != k ==> p.cooldowns[j] > now by {
      assert forall j :: 0 <= j < |p.cooldowns| && j != k ==> cooldowns[j] == p.cooldowns[j];
    }
  }

  // ----- The shared server wait -----

  datatype Joint = Joint(pool: Pool, retry: Retry)

  function Held(p: Pool, r: Retry, until: Time): Joint {
    if until == 0 then Joint(p, r)
    else Joint(p.(version := Increment(p.version)),
               r.(version := Increment(r.version), until := Max(until, r.until)))
  }

  datatype Readiness = Readiness(pool: Pool, ready: bool, delay: nat, observation: Observation)

  function Ready(p: Pool, r: Retry, k: int, now: Time): Readiness
    requires WellFormed(p)
  {
    if !(0 <= k < |p.cooldowns|) then Readiness(p, false, 0, Observation(0, 0, 0))
    else
      var until := Max(p.cooldowns[k], r.until);
      var seen := Observation(p.versions[k], p.version, r.version);
      if until > now then Readiness(p, false, until - now, seen)
      else Readiness(p.(cooldowns := p.cooldowns[k := 0]), true, 0, seen)
  }

  function Succeeded(p: Pool, r: Retry, k: int, seen: Observation): (Joint, bool)
    requires WellFormed(p)
  {
    if !(0 <= k < |p.cooldowns|) then (Joint(p, r), false)
    else
      var q := if p.versions[k] == seen.key then p.(failures := p.failures[k := 0]) else p;
      if p.version != seen.pool || r.version != seen.server then (Joint(q, r), false)
      else (Joint(q.(streak := 0, providerUntil := 0),
                  if r.until == 0 then r else r.(until := 0, version := Increment(r.version))), true)
  }

  // ----- The recovery claim -----

  datatype Admission =
    | NoLease
    | Granted(lease: Lease)
    | InProgress
    | Cooling(until: Time, byServer: bool)

  function Begun(p: Pool, r: Retry, id: nat, now: Time): (Joint, Admission) {
    if p.probe.Some? || r.probe.Some? then (Joint(p, r), InProgress)
    else if (p.streak == 0 || p.providerUntil == 0) && r.until == 0 then (Joint(p, r), NoLease)
    else
      var until := Max(p.providerUntil, r.until);
      if until > now then (Joint(p, r), Cooling(until, r.until > now))
      else
        var lease := Lease(id, r.until != 0);
        (Joint(p.(probe := Some(lease)), if lease.server then r.(probe := Some(lease)) else r), Granted(lease))
  }

  function Finished(p: Pool, r: Retry, lease: Lease): Joint {
    if p.probe != Some(lease) then Joint(p, r)
    else Joint(p.(probe := None), if lease.server && r.probe == Some(lease) then r.(probe := None) else r)
  }
}
