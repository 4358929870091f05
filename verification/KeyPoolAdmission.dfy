// When a key, or a whole provider, may be used again (internal/gateway/
// provider_key_pool.go:69-173 and 317-368).
module KeyPoolAdmission {
  import opened Basics
  import opened RecoveryBackoff
  import opened KeyPool
  import opened KeyPoolRecovery

  // ----- One key -----

  // A key is ready exactly when both its own cooldown and the shared wait are
  // over; otherwise the delay is the distance to the later of the two.
  lemma ReadyMeans(p: Pool, r: Retry, k: int, now: Time)
    requires WellFormed(p)
    ensures var c := Ready(p, r, k, now);
            && (c.ready <==> 0 <= k < |p.cooldowns| && p.cooldowns[k] <= now && r.until <= now)
            && (0 <= k < |p.cooldowns| && !c.ready ==>
                  now + c.delay >= p.cooldowns[k] && now + c.delay >= r.until
                  && (now + c.delay == p.cooldowns[k] || now + c.delay == r.until) && c.delay > 0)
            && (c.ready ==> c.delay == 0 && c.observation == Observation(p.versions[k], p.version, r.version))
            && c.pool == p.(cooldowns := c.pool.cooldowns) && |c.pool.cooldowns| == |p.cooldowns|
            && forall j :: 0 <= j < |p.cooldowns| ==>
                 c.pool.cooldowns[j] == p.cooldowns[j] || (c.ready && j == k && c.pool.cooldowns[j] == 0)
  {
  }

  // Cooling a key never lets it go earlier, and rests it between a second and a
  // day; it touches no other key.
  lemma CooledMeans(p: Pool, k: int, delay: int, now: Time)
    ensures var q := Cooled(p, k, delay, now);
            && q == p.(cooldowns := q.cooldowns) && |q.cooldowns| == |p.cooldowns|
            && (forall j :: 0 <= j < |p.cooldowns| && j != k ==> q.cooldowns[j] == p.cooldowns[j])
            && (0 <= k < |p.cooldowns| ==> RestsFrom(p.cooldowns[k], q.cooldowns[k], delay, now))
  {
  }

  predicate RestsFrom(before: Time, after: Time, delay: int, now: Time) {
    && after >= before && now + SECOND <= after && (after == before || after <= now + DAY)
    && (SECOND <= delay <= DAY ==> after >= now + delay && (after == before || after == now + delay))
    && (delay > DAY ==> after >= now + DAY) && (delay < SECOND ==> after == before || after == now + SECOND)
  }

  lemma CooledAllMeans(p: Pool, delay: int, now: Time)
    ensures var q := CooledAll(p, delay, now);
            && q == p.(cooldowns := q.cooldowns) && |q.cooldowns| == |p.cooldowns|
            && forall j :: 0 <= j < |p.cooldowns| ==> RestsFrom(p.cooldowns[j], q.cooldowns[j], delay, now)
  {
  }

  // ----- The recovery claim -----

  predicate Waits(p: Pool, r: Retry) {
    r.until != 0 || (p.streak > 0 && p.providerUntil != 0)
  }

  // Which of the four outcomes a request meets.
  lemma BegunMeans(p: Pool, r: Retry, id: nat, now: Time)
    ensures var (after, admission) := Begun(p, r, id, now);
            && (admission == InProgress <==> p.probe.Some? || r.probe.Some?)
            && (admission == NoLease <==> p.probe.None? && r.probe.None? && !Waits(p, r))
            && (admission.Cooling? <==> p.probe.None? && r.probe.None? && Waits(p, r) && (p.providerUntil > now || r.until > now))
            && (admission.Granted? <==> p.probe.None? && r.probe.None? && Waits(p, r) && p.providerUntil <= now && r.until <= now)
            && (admission.Cooling? ==>
                  admission.until >= p.providerUntil && admission.until >= r.until && admission.until > now
                  && (admission.until == p.providerUntil || admission.until == r.until) && (admission.byServer <==> r.until > now))
            && (admission.Granted? ==>
                  admission.lease == Lease(id, r.until != 0) && after.pool == p.(probe := Some(admission.lease))
                  && after.retry == if r.until != 0 then r.(probe := Some(admission.lease)) else r)
            && (!admission.Granted? ==> after == Joint(p, r))
  {
  }

  // ----- The provider rests as long as it was said to -----

  // While the provider rests, every key does, and the streak shows it.
  ghost predicate Covered(p: Pool, clock: Time) {
    && (p.providerUntil != 0 ==> p.streak > 0)
    && (p.providerUntil > clock ==> forall k :: 0 <= k < |p.cooldowns| ==> p.cooldowns[k] >= p.providerUntil)
  }

  ghost predicate AllCovered(s: System) {
    forall id :: id in s.pools ==> Covered(s.pools[id], s.clock)
  }

  lemma EffectCovers(p: Pool, r: Retry, nextLease: nat, a: Action, clock: Time)
    requires WellFormed(p) && !a.AddPool? && Covered(p, clock) && WithinADay(p.cooldowns, clock) && clock <= a.now
    ensures Covered(EffectOf(p, r, nextLease, a).pool, a.now)
    ensures !a.Succeed? ==> EffectOf(p, r, nextLease, a).pool.providerUntil >= p.providerUntil || p.providerUntil <= a.now
  {
    hide Delay, Usable, Wait, KeyDelay, Earliest;
    if a.RateLimit? && 0 <= a.key < |p.cooldowns| {
      LimitCovers(p, a.key, a.upstream, a.provided, a.now, _ => a.jitter, clock);
    }
    hide RateLimited;
  }

  lemma LimitCovers(p: Pool, k: nat, upstream: int, provided: bool, now: Time, jitter: nat -> nat, clock: Time)
    requires WellFormed(p) && k < |p.cooldowns| && Covered(p, clock) && WithinADay(p.cooldowns, now) && clock <= now
    ensures var q := RateLimited(p, k, upstream, provided, now, jitter).pool;
            Covered(q, now) && (q.providerUntil >= p.providerUntil || p.providerUntil <= now)
  {
    ProviderDelayIsExact(p, k, upstream, provided, now, jitter);
    LimitRaises(p, k, upstream, provided, now, jitter);
    var l := RateLimited(p, k, upstream, provided, now, jitter);
    hide RateLimited;
    if l.providerDelay > 0 { EarliestIsLeast(l.pool.cooldowns); }
    hide Earliest;
  }

  // A rejection only raises cooldowns.
  lemma LimitRaises(p: Pool, k: nat, upstream: int, provided: bool, now: Time, jitter: nat -> nat)
    requires WellFormed(p) && k < |p.cooldowns|
    ensures var l := RateLimited(p, k, upstream, provided, now, jitter);
            && |l.pool.cooldowns| == |p.cooldowns|
            && (forall j :: 0 <= j < |p.cooldowns| ==> l.pool.cooldowns[j] >= p.cooldowns[j])
            && (forall j :: 0 <= j < |p.cooldowns| && j != k && l.pool.streak <= 10 ==> l.pool.cooldowns[j] == p.cooldowns[j])
            && l.pool.streak == (if p.streak < MAX_FAILURES then p.streak + 1 else p.streak)
            && l.pool.failures == p.failures[k := if p.failures[k] < MAX_FAILURES then p.failures[k] + 1 else p.failures[k]]
            && l.pool.probe == p.probe && l.pool.next == p.next
  {
    hide Delay, Wait, KeyDelay;
  }

  // How long a rejection rests its key: for the wait it brought, within a second
  // and a day; without one at least for the cooldown; and from the eleventh on
  // for a day. The eleventh in a row of which no key is spared rests them all.
  lemma RejectionRests(p: Pool, k: nat, upstream: int, provided: bool, now: Time, jitter: nat -> nat)
    requires WellFormed(p) && k < |p.cooldowns|
    ensures var l := RateLimited(p, k, upstream, provided, now, jitter);
            var rest := l.pool.cooldowns[k] - now;
            && rest >= SECOND
            && (p.failures[k] >= 10 ==> rest >= DAY)
            && (provided && SECOND <= upstream <= DAY ==> rest >= upstream) && (provided && upstream > DAY ==> rest >= DAY)
            && (!provided ==> rest >= ROUTE_COOLDOWN && rest >= Min(DAY, upstream))
            && (p.streak < 10 && p.failures[k] < 10 && provided && SECOND <= upstream <= DAY && l.pool.cooldowns[k] > p.cooldowns[k] ==>
                  rest == upstream)
            && (p.streak >= 10 && (forall j :: 0 <= j < |p.cooldowns| && j != k ==> p.cooldowns[j] > now) ==>
                  forall j :: 0 <= j < |p.cooldowns| ==> l.pool.cooldowns[j] >= now + DAY)
  {
    var failures := IncrementFailures(p.failures[k]);
    DelayBounds("rate_limited", failures, upstream, jitter);
    var cooldowns := p.cooldowns[k := Max(p.cooldowns[k], now + KeyDelay(failures, upstream, provided, jitter))];
    WaitIsPositiveWhenAllCool(cooldowns, now);
    hide Delay, Wait;
  }

  lemma StepCovers(s: System, a: Action)
    requires AllCovered(s) && Rested(s) && Enabled(s, a)
    ensures AllCovered(Apply(s, a))
  {
    hide EffectOf, NewPool;
    if a.AddPool? {
      NewPoolRests(a.keys);
    } else {
      EffectCovers(s.pools[a.id], s.retry, s.nextLease, a, s.clock);
      forall id | id in s.pools && id != a.id ensures Covered(s.pools[id], a.now) {}
    }
  }

  lemma NewPoolRests(keys: nat)
    ensures NewPool(keys).providerUntil == 0
  {
  }

  lemma {:induction false} RunCovers(states: seq<System>, actions: seq<Action>, i: nat)
    requires Run(states, actions) && i < |states|
    ensures AllCovered(states[i])
  {
    hide Apply, Enabled, AllCovered;
    if i == 0 {
      StartCovers();
    } else {
      RunCovers(states, actions, i - 1);
      RunKeepsInv(states, actions, i - 1);
      StepCovers(states[i - 1], actions[i - 1]);
    }
  }

  lemma StartCovers()
    ensures AllCovered(Initial())
  {
  }

  ghost predicate NoSuccess(actions: seq<Action>, i: nat, j: nat, id: nat) {
    forall k :: i <= k < j && k < |actions| ==> !(actions[k].Succeed? && actions[k].id == id)
  }

  lemma StepKeepsUntil(s: System, a: Action, id: nat)
    requires AllCovered(s) && Rested(s) && Enabled(s, a) && id in s.pools && !(a.Succeed? && a.id == id)
    ensures id in Apply(s, a).pools
    ensures Apply(s, a).pools[id].providerUntil >= s.pools[id].providerUntil || s.pools[id].providerUntil <= Apply(s, a).clock
    ensures Apply(s, a).clock >= s.clock
  {
    hide EffectOf, NewPool;
    if !a.AddPool? && a.id == id {
      EffectCovers(s.pools[id], s.retry, s.nextLease, a, s.clock);
    }
  }

  lemma {:induction false} UntilIsKept(states: seq<System>, actions: seq<Action>, i: nat, j: nat, id: nat)
    requires Run(states, actions) && i <= j < |states| && id in states[i].pools && NoSuccess(actions, i, j, id)
    ensures id in states[j].pools && states[i].clock <= states[j].clock
    ensures states[j].pools[id].providerUntil >= states[i].pools[id].providerUntil || states[i].pools[id].providerUntil <= states[j].clock
  {
    hide Apply, Enabled, Rested, AllCovered;
    if i < j {
      UntilIsKept(states, actions, i, j - 1, id);
      RunCovers(states, actions, j - 1);
      RunKeepsInv(states, actions, j - 1);
      StepKeepsUntil(states[j - 1], actions[j - 1], id);
    }
  }

  // Main result: once all keys of a provider were rejected and it was said to
  // rest until U, no request is granted the recovery claim, and no key is a
  // candidate, before U, unless a success of that pool came in between.
  lemma ProviderRests(states: seq<System>, actions: seq<Action>, i: nat, j: nat, id: nat, now: Time)
    requires Run(states, actions) && i <= j < |states| && id in states[i].pools && NoSuccess(actions, i, j, id)
    requires states[j].clock <= now < states[i].pools[id].providerUntil
    ensures id in states[j].pools
    ensures var p, r := states[j].pools[id], states[j].retry;
            && (forall lease :: !Begun(p, r, lease, now).1.Granted? && Begun(p, r, lease, now).1 != NoLease)
            && AllCooling(p.cooldowns, now) && Candidates(p, r, now).keys == []
  {
    UntilIsKept(states, actions, i, j, id);
    RunCovers(states, actions, j);
    var p, r := states[j].pools[id], states[j].retry;
    assert Covered(p, states[j].clock);
    forall lease ensures !Begun(p, r, lease, now).1.Granted? && Begun(p, r, lease, now).1 != NoLease {
      BegunMeans(p, r, lease, now);
    }
    NoCandidates(p, r, now);
  }

  lemma NoCandidates(p: Pool, r: Retry, now: Time)
    requires AllCooling(p.cooldowns, now)
    ensures Candidates(p, r, now).keys == []
  {
    if p.cooldowns != [] && r.until <= now && Candidates(p, r, now).keys != [] {
      var k := Candidates(p, r, now).keys[0];
      UsableMembers(p.cooldowns, p.next % |p.cooldowns|, |p.cooldowns|, now, k);
    }
  }
}
