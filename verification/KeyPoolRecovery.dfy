// Runs of the key pools that share one server wait (internal/gateway/
// provider_key_pool.go and provider_retry_after.go): every locked method is one
// atomic step, taken by any pool in any order under a monotone clock.
module KeyPoolRecovery {
  import opened Basics
  import opened RecoveryBackoff
  import opened KeyPool

  // What can make an earlier observation stale.
  datatype Event =
    | Limited(pool: nat, key: nat)
    | Holding(pool: nat)
    | Clearing(pool: nat)

  datatype System = System(pools: map<nat, Pool>, retry: Retry, nextLease: nat, clock: Time, history: seq<Event>)

  datatype Action =
    | AddPool(id: nat, keys: nat)
    | Choose(id: nat, now: Time)
    | CoolKey(id: nat, key: int, delay: int, now: Time)
    | CoolAll(id: nat, delay: int, now: Time)
    | Hold(id: nat, until: Time, now: Time)
    | CheckReady(id: nat, key: int, now: Time)
    | RateLimit(id: nat, key: int, upstream: int, provided: bool, jitter: nat, now: Time)
    | Succeed(id: nat, key: int, seen: Observation, now: Time)
    | Begin(id: nat, now: Time)
    | Finish(id: nat, lease: Lease, now: Time)

  function Initial(): System {
    System(map[], Retry(0, 0, None), 0, 0, [])
  }

  // ----- One step -----

  datatype Effect = Effect(pool: Pool, retry: Retry, events: seq<Event>)

  function EffectOf(p: Pool, r: Retry, nextLease: nat, a: Action): Effect
    requires WellFormed(p) && !a.AddPool?
  {
    match a
    case Choose(_, now) => Effect(Candidates(p, r, now).pool, r, [])
    case CoolKey(_, k, delay, now) => Effect(Cooled(p, k, delay, now), r, [])
    case CoolAll(_, delay, now) => Effect(CooledAll(p, delay, now), r, [])
    case Hold(id, until, _) =>
      var j := Held(p, r, until);
      Effect(j.pool, j.retry, if until == 0 then [] else [Holding(id)])
    case CheckReady(_, k, now) => Effect(Ready(p, r, k, now).pool, r, [])
    case RateLimit(id, k, upstream, provided, jitter, now) =>
      if 0 <= k < |p.cooldowns| then
        Effect(RateLimited(p, k, upstream, provided, now, _ => jitter).pool, r, [Limited(id, k)])
      else Effect(p, r, [])
    case Succeed(id, k, seen, _) =>
      var j := Succeeded(p, r, k, seen).0;
      Effect(j.pool, j.retry, if j.retry == r then [] else [Clearing(id)])
    case Begin(_, now) =>
      var j := Begun(p, r, nextLease, now).0;
      Effect(j.pool, j.retry, [])
    case Finish(_, lease, _) =>
      var j := Finished(p, r, lease);
      Effect(j.pool, j.retry, [])
  }

  predicate Enabled(s: System, a: Action) {
    if a.AddPool? then a.id !in s.pools
    else a.id in s.pools && WellFormed(s.pools[a.id]) && s.clock <= a.now && a.now > 0
  }

  function Apply(s: System, a: Action): System
    requires Enabled(s, a)
  {
    if a.AddPool? then s.(pools := s.pools[a.id := NewPool(a.keys)])
    else
      var e := EffectOf(s.pools[a.id], s.retry, s.nextLease, a);
      System(s.pools[a.id := e.pool], e.retry, s.nextLease + 1, a.now, s.history + e.events)
  }

  ghost predicate Run(states: seq<System>, actions: seq<Action>) {
    && |states| == |actions| + 1 && states[0] == Initial()
    && forall i :: 0 <= i < |actions| ==> Enabled(states[i], actions[i]) && states[i + 1] == Apply(states[i], actions[i])
  }

  // ----- Counting events -----

  datatype Selector = OfPool(pool: nat) | OfKey(pool: nat, key: nat) | OfServer

  predicate Selects(sel: Selector, e: Event) {
    match sel
    case OfPool(id) => !e.Clearing? && e.pool == id
    case OfKey(id, k) => e == Limited(id, k)
    case OfServer => !e.Limited?
  }

  function Count(events: seq<Event>, sel: Selector): nat {
    if events == [] then 0
    else Count(events[..|events| - 1], sel) + if Selects(sel, events[|events| - 1]) then 1 else 0
  }

  lemma {:induction false} CountConcat(xs: seq<Event>, ys: seq<Event>, sel: Selector)
    ensures Count(xs + ys, sel) == Count(xs, sel) + Count(ys, sel)
  {
    if ys == [] {
      assert xs + ys == xs;
    } else {
      CountConcat(xs, ys[..|ys| - 1], sel);
      assert (xs + ys)[..|xs| + |ys| - 1] == xs + ys[..|ys| - 1];
    }
  }

  lemma {:induction false} CountBounds(events: seq<Event>, sel: Selector)
    ensures Count(events, sel) <= |events|
    ensures Count(events, sel) == 0 <==> forall i :: 0 <= i < |events| ==> !Selects(sel, events[i])
  {
    if events != [] {
      CountBounds(events[..|events| - 1], sel);
      assert forall i :: 0 <= i < |events| - 1 ==> events[..|events| - 1][i] == events[i];
    }
  }

  // ----- Invariant: versions count what happened -----

  function Version(count: nat): nat {
    Min(count, MAX_VERSION)
  }

  ghost predicate PoolCounted(id: nat, p: Pool, history: seq<Event>) {
    && WellFormed(p) && p.version == Version(Count(history, OfPool(id)))
    && forall k :: 0 <= k < |p.versions| ==> p.versions[k] == Version(Count(history, OfKey(id, k)))
  }

  ghost predicate Counted(s: System) {
    && (forall id :: id in s.pools ==> PoolCounted(id, s.pools[id], s.history))
    && s.retry.version == Version(Count(s.history, OfServer))
    && (forall i :: 0 <= i < |s.history| ==> s.history[i].pool in s.pools)
  }

  // At most one event a step, and each event ticks its versions.
  ghost predicate Ticks(id: nat, p: Pool, q: Pool, r: Retry, t: Retry, events: seq<Event>) {
    && |events| <= 1 && (events != [] ==> events[0].pool == id)
    && WellFormed(q) && |q.versions| == |p.versions|
    && q.version == (if Count(events, OfPool(id)) == 1 then Increment(p.version) else p.version)
    && (forall k :: 0 <= k < |p.versions| ==>
          q.versions[k] == if Count(events, OfKey(id, k)) == 1 then Increment(p.versions[k]) else p.versions[k])
    && t.version == (if Count(events, OfServer) == 1 then Increment(r.version) else r.version)
  }

  lemma CountAtMostOne(events: seq<Event>, sel: Selector)
    requires |events| <= 1
    ensures Count(events, sel) == if events != [] && Selects(sel, events[0]) then 1 else 0
  {
    if events != [] {
      assert events[..0] == [];
    }
  }

  lemma EffectTicks(p: Pool, r: Retry, nextLease: nat, a: Action)
    requires WellFormed(p) && !a.AddPool?
    ensures var e := EffectOf(p, r, nextLease, a); Ticks(a.id, p, e.pool, r, e.retry, e.events)
  {
    hide Delay, Usable, Wait, KeyDelay;
    var e := EffectOf(p, r, nextLease, a);
    CountAtMostOne(e.events, OfPool(a.id));
    CountAtMostOne(e.events, OfServer);
    forall k | 0 <= k < |p.versions|
      ensures e.pool.versions[k] == if Count(e.events, OfKey(a.id, k)) == 1 then Increment(p.versions[k]) else p.versions[k]
    {
      CountAtMostOne(e.events, OfKey(a.id, k));
    }
    hide Count;
  }

  lemma VersionTicks(history: seq<Event>, events: seq<Event>, sel: Selector, v: nat)
    requires |events| <= 1 && v == Version(Count(history, sel))
    ensures (if Count(events, sel) == 1 then Increment(v) else v) == Version(Count(history + events, sel))
  {
    CountConcat(history, events, sel);
    CountBounds(events, sel);
  }

  lemma PoolStaysCounted(id: nat, p: Pool, q: Pool, r: Retry, t: Retry, history: seq<Event>, events: seq<Event>)
    requires PoolCounted(id, p, history) && Ticks(id, p, q, r, t, events)
    ensures PoolCounted(id, q, history + events)
  {
    hide Count, Version;
    VersionTicks(history, events, OfPool(id), p.version);
    forall k | 0 <= k < |q.versions| ensures q.versions[k] == Version(Count(history + events, OfKey(id, k))) {
      VersionTicks(history, events, OfKey(id, k), p.versions[k]);
    }
  }

  lemma OtherPoolStaysCounted(id: nat, other: nat, p: Pool, history: seq<Event>, events: seq<Event>)
    requires PoolCounted(other, p, history) && |events| <= 1 && (events != [] ==> events[0].pool == id) && other != id
    ensures PoolCounted(other, p, history + events)
  {
    CountAtMostOne(events, OfPool(other));
    CountConcat(history, events, OfPool(other));
    forall k | 0 <= k < |p.versions| ensures p.versions[k] == Version(Count(history + events, OfKey(other, k))) {
      CountAtMostOne(events, OfKey(other, k));
      CountConcat(history, events, OfKey(other, k));
    }
  }

  lemma NewPoolIsCounted(s: System, id: nat, keys: nat)
    requires Counted(s) && id !in s.pools
    ensures PoolCounted(id, NewPool(keys), s.history)
  {
    CountBounds(s.history, OfPool(id));
    forall k | 0 <= k < keys ensures Count(s.history, OfKey(id, k)) == 0 {
      CountBounds(s.history, OfKey(id, k));
    }
  }

  lemma StepKeepsCounted(s: System, a: Action)
    requires Counted(s) && Enabled(s, a)
    ensures Counted(Apply(s, a))
  {
    hide EffectOf, PoolCounted, Count, Version, NewPool;
    if a.AddPool? {
      NewPoolIsCounted(s, a.id, a.keys);
    } else {
      var e := EffectOf(s.pools[a.id], s.retry, s.nextLease, a);
      EffectTicks(s.pools[a.id], s.retry, s.nextLease, a);
      PoolStaysCounted(a.id, s.pools[a.id], e.pool, s.retry, e.retry, s.history, e.events);
      VersionTicks(s.history, e.events, OfServer, s.retry.version);
      forall other | other in s.pools && other != a.id
        ensures PoolCounted(other, s.pools[other], s.history + e.events)
      {
        OtherPoolStaysCounted(a.id, other, s.pools[other], s.history, e.events);
      }
    }
  }

  // ----- Invariant: one claim, held by one pool -----

  ghost predicate Holder(s: System, id: nat, lease: Lease) {
    id in s.pools && s.pools[id].probe == Some(lease)
  }

  ghost predicate Claimed(s: System) {
    && (forall id :: id in s.pools && s.pools[id].probe.Some? ==>
          s.pools[id].probe.value.id < s.nextLease
          && (s.pools[id].probe.value.server ==> s.retry.probe == s.pools[id].probe))
    && (forall i, j :: i in s.pools && j in s.pools && i != j && s.pools[i].probe.Some? && s.pools[j].probe.Some? ==>
          s.pools[i].probe.value.id != s.pools[j].probe.value.id)
    && (s.retry.probe.Some? ==> s.retry.probe.value.server && exists id :: Holder(s, id, s.retry.probe.value))
  }

  // How a step can change the two probes: not at all, by a fresh grant when
  // both were free, or by the holder's release.
  datatype Change = Same | Grant(lease: Lease) | Release(lease: Lease)

  function ChangeOf(p: Pool, r: Retry, nextLease: nat, a: Action): Change {
    match a
    case Begin(_, now) =>
      var admission := Begun(p, r, nextLease, now).1;
      if admission.Granted? then Grant(admission.lease) else Same
    case Finish(_, lease, _) => if p.probe == Some(lease) then Release(lease) else Same
    case _ => Same
  }

  ghost predicate Probes(p: Pool, r: Retry, q: Pool, t: Retry, nextLease: nat, c: Change) {
    match c
    case Same => q.probe == p.probe && t.probe == r.probe
    case Grant(lease) =>
      && p.probe.None? && r.probe.None? && lease.id == nextLease && q.probe == Some(lease)
      && t.probe == if lease.server then Some(lease) else None
    case Release(lease) =>
      && p.probe == Some(lease) && q.probe == None
      && t.probe == if lease.server && r.probe == Some(lease) then None else r.probe
  }

  lemma EffectProbes(p: Pool, r: Retry, nextLease: nat, a: Action)
    requires WellFormed(p) && !a.AddPool?
    ensures var e := EffectOf(p, r, nextLease, a);
            Probes(p, r, e.pool, e.retry, nextLease, ChangeOf(p, r, nextLease, a))
  {
    hide Delay, Usable, Wait, KeyDelay;
  }

  // A step of one pool, told by its change of the probes.
  ghost predicate Moves(s: System, t: System, id: nat, c: Change) {
    && id in s.pools && id in t.pools && t.pools == s.pools[id := t.pools[id]] && t.nextLease == s.nextLease + 1
    && Probes(s.pools[id], s.retry, t.pools[id], t.retry, s.nextLease, c)
  }

  lemma SameKeepsClaimed(s: System, t: System, id: nat)
    requires Claimed(s) && Moves(s, t, id, Same)
    ensures Claimed(t)
  {
    if t.retry.probe.Some? {
      var holder :| Holder(s, holder, s.retry.probe.value);
      assert Holder(t, holder, t.retry.probe.value);
    }
  }

  lemma GrantKeepsClaimed(s: System, t: System, id: nat, lease: Lease)
    requires Claimed(s) && Moves(s, t, id, Grant(lease))
    ensures Claimed(t)
  {
    if t.retry.probe.Some? {
      assert Holder(t, id, t.retry.probe.value);
    }
  }

  lemma ReleaseKeepsClaimed(s: System, t: System, id: nat, lease: Lease)
    requires Claimed(s) && Moves(s, t, id, Release(lease))
    ensures Claimed(t)
  {
    if t.retry.probe.Some? {
      var holder :| Holder(s, holder, s.retry.probe.value);
      assert Holder(t, holder, t.retry.probe.value);
    }
  }

  lemma AddPoolKeepsClaimed(s: System, id: nat, keys: nat)
    requires Claimed(s) && id !in s.pools
    ensures Claimed(s.(pools := s.pools[id := NewPool(keys)]))
  {
    hide NewPool;
    NewPoolIsFree(keys);
    var t := s.(pools := s.pools[id := NewPool(keys)]);
    if t.retry.probe.Some? {
      var holder :| Holder(s, holder, s.retry.probe.value);
      assert Holder(t, holder, t.retry.probe.value);
    }
  }

  lemma StepKeepsClaimed(s: System, a: Action)
    requires Claimed(s) && Enabled(s, a)
    ensures Claimed(Apply(s, a))
  {
    hide EffectOf, Claimed, Probes, NewPool, ChangeOf;
    if a.AddPool? {
      AddPoolKeepsClaimed(s, a.id, a.keys);
    } else {
      EffectProbes(s.pools[a.id], s.retry, s.nextLease, a);
      match ChangeOf(s.pools[a.id], s.retry, s.nextLease, a)
      case Same => SameKeepsClaimed(s, Apply(s, a), a.id);
      case Grant(lease) => GrantKeepsClaimed(s, Apply(s, a), a.id, lease);
      case Release(lease) => ReleaseKeepsClaimed(s, Apply(s, a), a.id, lease);
    }
  }

  lemma NewPoolIsFree(keys: nat)
    ensures NewPool(keys).probe == None && WithinADay(NewPool(keys).cooldowns, 0)
  {
  }

  // ----- Invariant: no key cools for more than a day -----

  ghost predicate Rested(s: System) {
    forall id :: id in s.pools ==> WithinADay(s.pools[id].cooldowns, s.clock)
  }

  lemma EffectRests(p: Pool, r: Retry, nextLease: nat, a: Action, clock: Time)
    requires WellFormed(p) && !a.AddPool? && WithinADay(p.cooldowns, clock) && clock <= a.now
    ensures WithinADay(EffectOf(p, r, nextLease, a).pool.cooldowns, a.now)
  {
    hide Delay, Usable, Wait, KeyDelay, Earliest;
    if a.RateLimit? && 0 <= a.key < |p.cooldowns| {
      ProviderDelayIsExact(p, a.key, a.upstream, a.provided, a.now, _ => a.jitter);
    }
    hide RateLimited;
  }

  lemma StepKeepsRested(s: System, a: Action)
    requires Rested(s) && Enabled(s, a)
    ensures Rested(Apply(s, a))
  {
    hide EffectOf, NewPool;
    if a.AddPool? {
      NewPoolIsFree(a.keys);
    } else {
      EffectRests(s.pools[a.id], s.retry, s.nextLease, a, s.clock);
    }
  }

  // ----- Runs -----

  ghost predicate Inv(s: System) {
    Counted(s) && Claimed(s) && Rested(s)
  }

  lemma {:induction false} RunKeepsInv(states: seq<System>, actions: seq<Action>, i: nat)
    requires Run(states, actions) && i < |states|
    ensures Inv(states[i])
  {
    hide Counted, Claimed, Rested, Apply, Enabled;
    if i == 0 {
      InitialInv();
    } else {
      RunKeepsInv(states, actions, i - 1);
      StepKeepsCounted(states[i - 1], actions[i - 1]);
      StepKeepsClaimed(states[i - 1], actions[i - 1]);
      StepKeepsRested(states[i - 1], actions[i - 1]);
    }
  }

  lemma InitialInv()
    ensures Inv(Initial())
  {
  }

  lemma StepExtendsHistory(s: System, a: Action)
    requires Enabled(s, a)
    ensures s.history <= Apply(s, a).history && s.pools.Keys <= Apply(s, a).pools.Keys
    ensures a.id in Apply(s, a).pools
    ensures forall id :: id in s.pools ==> |Apply(s, a).pools[id].cooldowns| == |s.pools[id].cooldowns|
  {
    hide Delay, Usable, Wait, KeyDelay;
  }

  lemma {:induction false} HistoryGrows(states: seq<System>, actions: seq<Action>, i: nat, j: nat)
    requires Run(states, actions) && i <= j < |states|
    ensures states[i].history <= states[j].history && states[i].pools.Keys <= states[j].pools.Keys
    ensures forall id :: id in states[i].pools ==> |states[j].pools[id].cooldowns| == |states[i].pools[id].cooldowns|
  {
    hide Apply, Enabled;
    if i < j {
      HistoryGrows(states, actions, i, j - 1);
      StepExtendsHistory(states[j - 1], actions[j - 1]);
    }
  }

  // ----- Main results -----

  // What happened to the pools between two points of a run.
  function Since(s: System, t: System): seq<Event>
    requires s.history <= t.history
  {
    t.history[|s.history|..]
  }

  predicate Disturbs(e: Event, id: nat) {
    (e.Limited? && e.pool == id) || e.Holding? || e.Clearing?
  }

  ghost predicate Quiet(events: seq<Event>, id: nat) {
    forall i :: 0 <= i < |events| ==> !Disturbs(events[i], id)
  }

  lemma CountSince(s: System, t: System, sel: Selector)
    requires s.history <= t.history
    ensures Count(t.history, sel) == Count(s.history, sel) + Count(Since(s, t), sel)
  {
    assert t.history == s.history + Since(s, t);
    CountConcat(s.history, Since(s, t), sel);
  }

  lemma QuietMeansUncounted(events: seq<Event>, id: nat)
    ensures Quiet(events, id) <==> Count(events, OfPool(id)) == 0 && Count(events, OfServer) == 0
  {
    CountBounds(events, OfPool(id));
    CountBounds(events, OfServer);
    hide Count;
    if Quiet(events, id) {
      forall i | 0 <= i < |events| ensures !Selects(OfPool(id), events[i]) && !Selects(OfServer, events[i]) {
        assert !Disturbs(events[i], id);
      }
    } else {
      var i :| 0 <= i < |events| && Disturbs(events[i], id);
      assert Selects(OfPool(id), events[i]) || Selects(OfServer, events[i]);
    }
  }

  ghost predicate Unchanged(v: nat, w: nat, since: seq<Event>, sel: Selector) {
    v == w <==> Count(since, sel) == 0
  }

  lemma VersionsShowEvents(s: System, t: System, sel: Selector)
    requires s.history <= t.history && |t.history| <= MAX_VERSION
    ensures Unchanged(Version(Count(s.history, sel)), Version(Count(t.history, sel)), Since(s, t), sel)
  {
    CountSince(s, t, sel);
    CountBounds(t.history, sel);
  }

  lemma LimitedIsCounted(events: seq<Event>, id: nat, k: nat)
    ensures Limited(id, k) in events <==> Count(events, OfKey(id, k)) != 0
  {
    CountBounds(events, OfKey(id, k));
    hide Count;
    if Limited(id, k) in events {
      var i :| 0 <= i < |events| && events[i] == Limited(id, k);
      assert Selects(OfKey(id, k), events[i]);
    }
  }

  // What a success does when its observation is compared with the versions.
  lemma SuccessByVersions(p: Pool, r: Retry, k: nat, seen: Observation)
    requires WellFormed(p) && k < |p.cooldowns|
    ensures
      var after, cleared := Succeeded(p, r, k, seen).0, Succeeded(p, r, k, seen).1;
      && (cleared <==> p.version == seen.pool && r.version == seen.server)
      && (cleared ==> after.pool.streak == 0 && after.pool.providerUntil == 0 && after.retry.until == 0)
      && (!cleared ==> after.retry == r && after.pool.streak == p.streak && after.pool.providerUntil == p.providerUntil)
      && after.pool.failures[k] == if p.versions[k] == seen.key then 0 else p.failures[k]
  {
  }

  // A success clears the streak and the shared wait exactly when nothing
  // disturbed this pool or the shared state since its attempt was admitted.
  lemma SuccessClearsWhenQuiet(states: seq<System>, actions: seq<Action>, i: nat, j: nat, id: nat, k: nat, now: Time)
    requires Run(states, actions) && i <= j < |states|
    requires id in states[i].pools && k < |states[i].pools[id].cooldowns|
    requires |states[j].history| <= MAX_VERSION
    ensures states[i].history <= states[j].history && id in states[j].pools
    ensures WellFormed(states[i].pools[id]) && WellFormed(states[j].pools[id])
    ensures k < |states[j].pools[id].cooldowns|
    ensures
      var since := Since(states[i], states[j]);
      var p, r := states[j].pools[id], states[j].retry;
      var seen := Ready(states[i].pools[id], states[i].retry, k, now).observation;
      var after, cleared := Succeeded(p, r, k, seen).0, Succeeded(p, r, k, seen).1;
      && (cleared <==> Quiet(since, id))
      && (cleared ==> after.pool.streak == 0 && after.pool.providerUntil == 0 && after.retry.until == 0)
      && (!cleared ==> after.retry == r && after.pool.streak == p.streak && after.pool.providerUntil == p.providerUntil)
      && after.pool.failures[k] == if Limited(id, k) in since then p.failures[k] else 0
  {
    HistoryGrows(states, actions, i, j);
    RunKeepsInv(states, actions, i);
    RunKeepsInv(states, actions, j);
    SuccessInCountedStates(states[i], states[j], id, k, now);
  }

  lemma SuccessInCountedStates(s: System, t: System, id: nat, k: nat, now: Time)
    requires Counted(s) && Counted(t) && s.history <= t.history && |t.history| <= MAX_VERSION
    requires id in s.pools && id in t.pools && k < |s.pools[id].cooldowns| == |t.pools[id].cooldowns|
    ensures WellFormed(s.pools[id]) && WellFormed(t.pools[id])
    ensures
      var since := Since(s, t);
      var p, r := t.pools[id], t.retry;
      var seen := Ready(s.pools[id], s.retry, k, now).observation;
      var after, cleared := Succeeded(p, r, k, seen).0, Succeeded(p, r, k, seen).1;
      && (cleared <==> Quiet(since, id))
      && (cleared ==> after.pool.streak == 0 && after.pool.providerUntil == 0 && after.retry.until == 0)
      && (!cleared ==> after.retry == r && after.pool.streak == p.streak && after.pool.providerUntil == p.providerUntil)
      && after.pool.failures[k] == if Limited(id, k) in since then p.failures[k] else 0
  {
    hide Count, Quiet, Version, Succeeded;
    assert PoolCounted(id, s.pools[id], s.history) && PoolCounted(id, t.pools[id], t.history);
    var since := Since(s, t);
    VersionsShowEvents(s, t, OfPool(id));
    VersionsShowEvents(s, t, OfServer);
    VersionsShowEvents(s, t, OfKey(id, k));
    QuietMeansUncounted(since, id);
    LimitedIsCounted(since, id, k);
    SuccessByVersions(t.pools[id], t.retry, k, Ready(s.pools[id], s.retry, k, now).observation);
  }

  // Without a clearing success, the shared wait is never taken back.
  lemma {:induction false} ServerWaitIsMonotone(states: seq<System>, actions: seq<Action>, i: nat, j: nat)
    requires Run(states, actions) && i <= j < |states|
    ensures states[i].history <= states[j].history
    ensures (forall e :: e in Since(states[i], states[j]) ==> !e.Clearing?) ==>
              states[i].retry.until <= states[j].retry.until
  {
    hide Apply, Enabled;
    HistoryGrows(states, actions, i, j);
    if i < j {
      HistoryGrows(states, actions, i, j - 1);
      ServerWaitIsMonotone(states, actions, i, j - 1);
      StepExtendsHistory(states[j - 1], actions[j - 1]);
      OnlyClearingShortens(states[j - 1], actions[j - 1]);
      var before, last := Since(states[i], states[j - 1]), Since(states[j - 1], states[j]);
      assert Since(states[i], states[j]) == before + last;
      assert forall e :: e in before || e in last ==> e in before + last;
    }
  }

  lemma OnlyClearingShortens(s: System, a: Action)
    requires Enabled(s, a)
    ensures s.history <= Apply(s, a).history
    ensures Apply(s, a).retry.until < s.retry.until ==> Clearing(a.id) in Since(s, Apply(s, a))
  {
    hide Delay, Usable, Wait, KeyDelay, RateLimited, Candidates;
    if !a.AddPool? {
      var e := EffectOf(s.pools[a.id], s.retry, s.nextLease, a);
      assert Since(s, Apply(s, a)) == e.events;
    }
  }

  // While the shared claim is held it is one pool's own probe, every pool is
  // refused, and only that pool's release of that lease ends it.
  lemma ServerClaimIsExclusive(states: seq<System>, actions: seq<Action>, i: nat)
    requires Run(states, actions) && i < |states| && states[i].retry.probe.Some?
    ensures
      var s := states[i];
      var lease := s.retry.probe.value;
      exists holder :: Holder(s, holder, lease)
        && (forall id :: id in s.pools && id != holder && s.pools[id].probe.Some? ==> !s.pools[id].probe.value.server)
        && (forall id, now :: id in s.pools ==> Begun(s.pools[id], s.retry, s.nextLease, now).1 == InProgress)
        && (forall a :: Enabled(s, a) ==>
              if a.Finish? && a.id == holder && a.lease == lease
              then Apply(s, a).retry.probe == None && Apply(s, a).pools[holder].probe == None
              else Apply(s, a).retry.probe == Some(lease) && Holder(Apply(s, a), holder, lease))
  {
    RunKeepsInv(states, actions, i);
    var s := states[i];
    hide Run, Counted, Rested;
    var lease := s.retry.probe.value;
    var holder :| Holder(s, holder, lease);
    forall a | Enabled(s, a)
      ensures if a.Finish? && a.id == holder && a.lease == lease
              then Apply(s, a).retry.probe == None && Apply(s, a).pools[holder].probe == None
              else Apply(s, a).retry.probe == Some(lease) && Holder(Apply(s, a), holder, lease)
    {
      ClaimStep(s, a, holder, lease);
    }
  }

  lemma ClaimStep(s: System, a: Action, holder: nat, lease: Lease)
    requires Claimed(s) && Enabled(s, a) && s.retry.probe == Some(lease) && Holder(s, holder, lease)
    ensures if a.Finish? && a.id == holder && a.lease == lease
            then Apply(s, a).retry.probe == None && Apply(s, a).pools[holder].probe == None
            else Apply(s, a).retry.probe == Some(lease) && Holder(Apply(s, a), holder, lease)
  {
    hide EffectOf, NewPool;
    if !a.AddPool? {
      EffectProbes(s.pools[a.id], s.retry, s.nextLease, a);
    }
  }

  // In every run no key cools for more than a day past the clock, so there the
  // provider delay of a rate limit is exact, and its key delay but for one case.
  lemma ReportedDelayIsExact(states: seq<System>, actions: seq<Action>, i: nat, id: nat, k: nat, upstream: int, provided: bool,
                             jitter: nat -> nat, now: Time)
    requires Run(states, actions) && i < |states| && id in states[i].pools && states[i].clock <= now
    ensures WellFormed(states[i].pools[id]) && WithinADay(states[i].pools[id].cooldowns, states[i].clock)
    ensures k < |states[i].pools[id].cooldowns| ==>
              var l := RateLimited(states[i].pools[id], k, upstream, provided, now, jitter);
              (l.providerDelay > 0 <==> AllCooling(l.pool.cooldowns, now))
              && (l.providerDelay > 0 ==> now + l.providerDelay == Earliest(l.pool.cooldowns))
              && (now + l.keyDelay == l.pool.cooldowns[k]
                  <==> !ReportsShort(states[i].pools[id], k, upstream, provided, now, jitter))
  {
    RunKeepsInv(states, actions, i);
    hide Run, Claimed, RateLimited;
    var p := states[i].pools[id];
    assert PoolCounted(id, p, states[i].history);
    if k < |p.cooldowns| {
      ProviderDelayIsExact(p, k, upstream, provided, now, jitter);
      KeyDelayIsExact(p, k, upstream, provided, now, jitter);
      hide ReportsShort;
    }
  }
}
