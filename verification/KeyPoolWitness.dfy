// A run of internal/gateway/provider_key_pool.go:233-278 after which a rate limit
// reports less than its key rests: two keys, five rejections of each without a
// wait from upstream, and then the request that holds the recovery claim.
module KeyPoolWitness {
  import opened Basics
  import opened RecoveryBackoff
  import opened KeyPool
  import opened KeyPoolRecovery

  // The rest after the m-th rejection of one key, without jitter.
  function Rest(m: nat): nat {
    if m == 0 then 0 else Base("rate_limited", m)
  }

  lemma RestDoubles()
    ensures Rest(1) == 30 * SECOND && Rest(2) == 60 * SECOND && Rest(3) == 120 * SECOND
    ensures Rest(4) == 240 * SECOND && Rest(5) == 480 * SECOND && Rest(6) == 960 * SECOND
  {
    assert PowerOfTwo(1) == 2 && PowerOfTwo(2) == 4 && PowerOfTwo(3) == 8;
    assert PowerOfTwo(4) == 16 && PowerOfTwo(5) == 32;
  }

  // ----- The run -----

  // Key 0 is rejected in the first second, key 1 in the second one.
  function Rejection(n: nat): Action {
    if n < 5 then RateLimit(0, 0, 0, false, 0, SECOND) else RateLimit(0, 1, 0, false, 0, 2 * SECOND)
  }

  function PoolAfter(n: nat): (p: Pool)
    requires n <= 10
    ensures WellFormed(p)
  {
    var a, b := if n < 5 then n else 5, if n < 5 then 0 else n - 5;
    var cooldowns := [if a == 0 then 0 else SECOND + Rest(a), if b == 0 then 0 else 2 * SECOND + Rest(b)];
    Pool(0, cooldowns, [a, b], [a, b], n, n, if b == 0 then 0 else Min(cooldowns[0], cooldowns[1]), None)
  }

  function Limits(n: nat): seq<Event> {
    if n == 0 then [] else Limits(n - 1) + [Limited(0, if n <= 5 then 0 else 1)]
  }

  function After(n: nat): System
    requires n <= 10
  {
    System(map[0 := PoolAfter(n)], Retry(0, 0, None), n, if n == 0 then 0 else Rejection(n - 1).now, Limits(n))
  }

  // When key 0 is usable again; key 1 cools for one second more.
  const AGAIN: Time := 481 * SECOND

  function Steps(): seq<Action> {
    [AddPool(0, 2)] + seq(10, i requires 0 <= i < 10 => Rejection(i)) + [Begin(0, AGAIN), CheckReady(0, 0, AGAIN)]
  }

  lemma RejectKey0(n: nat)
    requires n < 5
    ensures RateLimited(PoolAfter(n), 0, 0, false, SECOND, _ => 0).pool == PoolAfter(n + 1)
  {
    RestDoubles();
    hide Base;
    KeyRests(n + 1);
    var p := PoolAfter(n);
    hide KeyDelay, Rest;
    var cooldowns := p.cooldowns[0 := SECOND + Rest(n + 1)];
    assert cooldowns[1] == 0;
    WaitIsPositiveWhenAllCool(cooldowns, SECOND);
  }

  lemma KeyRests(m: nat)
    requires 1 <= m <= 6
    ensures KeyDelay(m, 0, false, _ => 0) == Rest(m)
  {
    RestDoubles();
  }

  lemma RejectKey1(n: nat)
    requires 5 <= n < 10
    ensures RateLimited(PoolAfter(n), 1, 0, false, 2 * SECOND, _ => 0).pool == PoolAfter(n + 1)
  {
    RestDoubles();
    hide Base;
    KeyRests(n - 4);
    var p := PoolAfter(n);
    hide KeyDelay, Rest;
    var cooldowns := p.cooldowns[1 := 2 * SECOND + Rest(n - 4)];
    assert AllCooling(cooldowns, 2 * SECOND);
    EarliestOfTwo(cooldowns);
  }

  lemma EarliestOfTwo(cooldowns: seq<Time>)
    requires |cooldowns| == 2
    ensures Earliest(cooldowns) == Min(cooldowns[0], cooldowns[1])
  {
    assert cooldowns[..1] == [cooldowns[0]];
  }

  lemma RejectionStep(n: nat)
    requires n < 10
    ensures Enabled(After(n), Rejection(n)) && Apply(After(n), Rejection(n)) == After(n + 1)
  {
    if n < 5 { RejectKey0(n); } else { RejectKey1(n); }
    hide RateLimited, PoolAfter;
    assert map[0 := PoolAfter(n)][0 := PoolAfter(n + 1)] == map[0 := PoolAfter(n + 1)];
    hide Limits;
    LimitsPush(n);
  }

  lemma LimitsPush(n: nat)
    ensures Limits(n + 1) == Limits(n) + [Limited(0, if n < 5 then 0 else 1)]
  {
  }

  // The claim is granted, and then the key is found ready.
  function Testing(): System {
    After(10).(pools := map[0 := PoolAfter(10).(probe := Some(Lease(10, false)))], nextLease := 11, clock := AGAIN)
  }

  lemma ClaimStep()
    ensures Enabled(After(10), Begin(0, AGAIN)) && Apply(After(10), Begin(0, AGAIN)) == Testing()
  {
    RestDoubles();
    hide Rest;
    var q := PoolAfter(10).(probe := Some(Lease(10, false)));
    assert Begun(PoolAfter(10), Retry(0, 0, None), 10, AGAIN).0.pool == q;
    assert map[0 := PoolAfter(10)][0 := q] == map[0 := q];
    assert Limits(10) + [] == Limits(10);
  }

  function Last(): (p: Pool)
    ensures WellFormed(p)
  {
    Pool(0, [0, 482 * SECOND], [5, 5], [5, 5], 10, 10, AGAIN, Some(Lease(10, false)))
  }

  lemma ReadyStep()
    ensures Enabled(Testing(), CheckReady(0, 0, AGAIN))
            && Apply(Testing(), CheckReady(0, 0, AGAIN)) == Testing().(pools := map[0 := Last()], nextLease := 12)
  {
    RestDoubles();
    hide Rest;
    var q := PoolAfter(10).(probe := Some(Lease(10, false)));
    assert q.cooldowns[0 := 0] == [0, 482 * SECOND];
    assert KeyPool.Ready(q, Retry(0, 0, None), 0, AGAIN).pool == Last();
    assert map[0 := q][0 := Last()] == map[0 := Last()];
    assert Limits(10) + [] == Limits(10);
  }

  lemma FirstStep()
    ensures Enabled(Initial(), AddPool(0, 2)) && Apply(Initial(), AddPool(0, 2)) == After(0)
  {
    assert NewPool(2) == PoolAfter(0) by {
      assert NewPool(2).cooldowns == [0, 0] && NewPool(2).failures == [0, 0] && NewPool(2).versions == [0, 0];
    }
    assert map[][0 := NewPool(2)] == map[0 := PoolAfter(0)];
  }

  function States(): seq<System> {
    [Initial()] + seq(11, i requires 0 <= i < 11 => After(i)) + [Testing(), Testing().(pools := map[0 := Last()], nextLease := 12)]
  }

  lemma StatesRun()
    ensures Run(States(), Steps()) && States()[13].pools == map[0 := Last()] && States()[13].clock == AGAIN
  {
    FirstStep();
    ClaimStep();
    ReadyStep();
    hide Enabled, Apply, After, PoolAfter, Last, Rejection;
    var states, steps := States(), Steps();
    forall i | 0 <= i < 13 ensures Enabled(states[i], steps[i]) && states[i + 1] == Apply(states[i], steps[i]) {
      if 1 <= i <= 10 {
        assert states[i] == After(i - 1) && states[i + 1] == After(i) && steps[i] == Rejection(i - 1);
        RejectionStep(i - 1);
      }
    }
  }

  // The last state of a run: ten rejections in a row, the request that may test
  // whether the provider recovered, and one key that cools for a second yet. Its
  // rejection reports sixteen minutes, and the key rests a day.
  lemma ReportedKeyDelayCanBeShort() returns (states: seq<System>, actions: seq<Action>)
    ensures Run(states, actions)
    ensures var s := states[|actions|];
            && 0 in s.pools && WellFormed(s.pools[0]) && |s.pools[0].cooldowns| == 2 && s.pools[0].probe.Some?
            && ReportsShort(s.pools[0], 0, 0, false, s.clock, _ => 0)
            && var l := RateLimited(s.pools[0], 0, 0, false, s.clock, _ => 0);
               l.keyDelay == 960 * SECOND && l.pool.cooldowns[0] == s.clock + DAY && l.providerDelay == DAY
  {
    StatesRun();
    states, actions := States(), Steps();
    hide States, Steps, Run;
    RestDoubles();
    KeyRests(6);
    hide KeyDelay, Rest, Base;
    var cooldowns := Last().cooldowns[0 := AGAIN + 960 * SECOND];
    assert AllCooling(cooldowns, AGAIN);
    EarliestOfTwo(cooldowns);
    hide Earliest;
  }
}
