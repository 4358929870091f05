// One request through internal/gateway/route_recovery.go:99-145 and the
// callbacks of provider_dispatch.go:152-245: begin both claims, recheck them
// before the request goes out, and give both up on every way out. The classes
// require what the runs of leases take for granted, so that this composition
// verifies shows that the code keeps to it.
module RouteRecovery {
  import opened Basics
  import opened RecoveryBackoff
  import K = KeyPool
  import P = ProviderKeyPools
  import A = Availability
  import R = AvailabilityRuns
  import S = AvailabilityState

  // The failure of an attempt as far as it concerns the key pool.
  datatype KeyFailure = KeyFailure(
    notSent: bool, rateLimited: bool, credential: bool, provided: bool, until: Time, cooldown: nat)

  // One check of a candidate before it is used.
  datatype Check = Check(index: int, now: Time)

  // What happens around the modelled code: the checks the adapter asks for, how
  // the attempt ends, and whether the call returns at all.
  datatype Script = Script(
    start: Time, checks: seq<Check>, send: bool, failure: Option<KeyFailure>, ending: A.Ending, end: Time,
    handled: bool, jitter: nat -> nat)

  ghost function SystemOf(s: S.AvailabilityState, l: S.AvailabilityLease, others: map<nat, A.Lease>): R.System
    reads s, l
  {
    R.System(s.View(), others[l.id := l.View()], s.stamp)
  }

  // ----- What a failure may do to the key pool -----

  // The wait of a rejected key: with an instant from upstream it lasts as long as
  // the shared wait then held.
  function RateWait(f: KeyFailure, serverUntil: Time, now: Time): nat {
    if !f.provided then f.cooldown else K.Apart(serverUntil, now)
  }

  // A server wait concerns the provider in every view; the health of a key is
  // touched only while the view is the published one.
  function FailedEffect(p: K.Pool, r: K.Retry, index: int, f: KeyFailure, now: Time, jitter: nat -> nat, published: bool): K.Joint
    requires K.WellFormed(p)
  {
    var held := if f.provided then K.Held(p, r, f.until) else K.Joint(p, r);
    if f.notSent then K.Joint(p, r)
    else if !published then held
    else if f.rateLimited then
      if 0 <= index < |p.cooldowns| then
        var serverUntil := if f.until == 0 then 0 else held.retry.until;
        held.(pool := K.RateLimited(held.pool, index, RateWait(f, serverUntil, now), f.provided, now, jitter).pool)
      else held
    else if f.credential && !(f.provided && f.until != 0) then held.(pool := K.Cooled(held.pool, index, f.cooldown, now))
    else held
  }

  lemma UnpublishedFailureKeepsKeys(p: K.Pool, r: K.Retry, index: int, f: KeyFailure, now: Time, jitter: nat -> nat)
    requires K.WellFormed(p)
    ensures var after := FailedEffect(p, r, index, f, now, jitter, false);
            && after.pool == p.(version := after.pool.version) && after.retry.until >= r.until && after.retry.probe == r.probe
  {
  }

  // A key that was rejected with an instant rests until the shared wait is over,
  // the longest one any pool was asked for, but at most a day.
  lemma RejectedKeyRestsThroughServerWait(p: K.Pool, r: K.Retry, index: int, f: KeyFailure, now: Time, jitter: nat -> nat)
    requires K.WellFormed(p) && 0 <= index < |p.cooldowns|
    requires !f.notSent && f.rateLimited && f.provided && f.until != 0
    ensures var after := FailedEffect(p, r, index, f, now, jitter, true);
            && after.retry.until == Max(f.until, r.until)
            && |after.pool.cooldowns| == |p.cooldowns|
            && after.pool.cooldowns[index] >= Min(after.retry.until, now + DAY)
            && after.pool.cooldowns[index] >= p.cooldowns[index]
  {
    var held := K.Held(p, r, f.until);
    K.KeyDelayBounds(K.IncrementFailures(p.failures[index]), RateWait(f, held.retry.until, now), true, jitter);
    hide K.Wait, Delay;
  }

  // What a failure leaves behind. One that was never sent leaves nothing. A wait
  // from upstream is held for the provider in every view. In the published view a
  // rejection cools its key for the held wait, or by backoff; a credential failure
  // without such a wait cools its key alone; any other failure cools none.
  lemma FailureMeans(p: K.Pool, r: K.Retry, index: int, f: KeyFailure, now: Time, jitter: nat -> nat, published: bool)
    requires K.WellFormed(p)
    ensures var after := FailedEffect(p, r, index, f, now, jitter, published);
            var held, inRange := f.provided && f.until != 0, 0 <= index < |p.cooldowns|;
            && (f.notSent ==> after == K.Joint(p, r))
            && (!f.notSent ==>
                  && after.retry.until == (if held then Max(f.until, r.until) else r.until) && after.retry.probe == r.probe
                  && (published && f.rateLimited && inRange ==>
                        after.pool.streak == K.IncrementFailures(p.streak)
                        && after.pool.failures[index] == K.IncrementFailures(p.failures[index]))
                  && (!(published && f.rateLimited && inRange) ==> after.pool.streak == p.streak && after.pool.failures == p.failures)
                  && (published && !f.rateLimited && f.credential && !held && inRange ==>
                        after.pool.cooldowns[index] >= now + SECOND && after.pool.cooldowns[index] >= now + Min(DAY, f.cooldown)
                        && forall k :: 0 <= k < |p.cooldowns| && k != index ==> after.pool.cooldowns[k] == p.cooldowns[k])
                  && (!(published && inRange && (f.rateLimited || (f.credential && !held))) ==> after.pool.cooldowns == p.cooldowns))
  {
    hide K.Wait, Delay, K.KeyDelay;
  }

  // What a completion is told: nothing about health unless the view is published
  // and the key's observation still stands.
  function Reported(ending: A.Ending, trusted: bool): A.Ending {
    if trusted then ending else ending.(handled := true, reason := "")
  }

  // ----- One request as a function of what it meets -----

  function GenerationOf(targets: seq<A.Target>): nat {
    if targets == [] then 0 else targets[0].generation
  }

  predicate IsPublished(t: A.Table, epoch: nat, provider: string, targets: seq<A.Target>) {
    t.epoch == epoch && GenerationOf(targets) == if provider in t.generations then t.generations[provider] else 0
  }

  datatype Call = Call(table: A.Table, lease: A.Lease, stamp: nat, claim: Option<K.Lease>, keys: K.Joint, seen: K.Observation)

  ghost predicate Shaped(c: Call) {
    |c.lease.recorded| == |c.lease.targets| && K.WellFormed(c.keys.pool)
  }

  // A lease refused at the start may still be claimed when the wait is over.
  function Reclaimed(c: Call, id: nat, now: Time): (Call, bool) {
    if c.claim.Some? then (c, true)
    else
      var begun := K.Begun(c.keys.pool, c.keys.retry, id, now);
      match begun.1
      case NoLease => (c, true)
      case Granted(lease) => (c.(keys := begun.0, claim := Some(lease)), true)
      case _ => (c, false)
  }

  // The check just before the request goes out: the targets, the shared claim
  // and then the key.
  function Rechecked(c: Call, id: nat, check: Check): (r: (Call, bool))
    requires Shaped(c)
    ensures Shaped(r.0) && r.0.lease.targets == c.lease.targets
  {
    var d := A.Dispatched(c.table, c.lease, id, check.now, c.stamp);
    var dispatched := c.(table := d.table, lease := d.lease, stamp := c.stamp + 1);
    if d.blockedBy.Some? || !(0 <= check.index < |c.keys.pool.cooldowns|) then (dispatched, false)
    else
      var reclaimed := Reclaimed(dispatched, id, check.now);
      if !reclaimed.1 then (dispatched, false)
      else
        var claimed := reclaimed.0;
        var k := K.Ready(claimed.keys.pool, claimed.keys.retry, check.index, check.now);
        (claimed.(keys := claimed.keys.(pool := k.pool), seen := if k.ready then k.observation else claimed.seen), k.ready)
  }

  // A sequence of checks, and the candidate that the last of them found ready.
  function Checked(c: Call, id: nat, checks: seq<Check>): (r: (Call, Option<int>))
    requires Shaped(c)
    ensures Shaped(r.0) && r.0.lease.targets == c.lease.targets
    ensures r.1.Some? ==> checks != [] && r.1.value == checks[|checks| - 1].index
  {
    if checks == [] then (c, None)
    else
      var last := checks[|checks| - 1];
      var r := Rechecked(Checked(c, id, checks[..|checks| - 1]).0, id, last);
      (r.0, if r.1 then Some(last.index) else None)
  }

  // The result of an attempt on a key, as the pool takes it; was it taken?
  function Counted(keys: K.Joint, index: int, seen: K.Observation, script: Script, published: bool): (r: (K.Joint, bool))
    requires K.WellFormed(keys.pool)
  {
    var failed := if script.failure.Some?
                  then FailedEffect(keys.pool, keys.retry, index, script.failure.value, script.end, script.jitter, published)
                  else keys;
    if !published then (failed, false)
    else if script.ending.failed then (failed, true)
    else K.Succeeded(failed.pool, failed.retry, index, seen)
  }

  // At most one attempt, and one completion.
  ghost function Ended(c: Call, id: nat, selected: Option<int>, script: Script, published: bool, hints: seq<A.Target>): (r: Call)
    requires Shaped(c) && |hints| == |c.lease.targets|
    ensures r.claim == c.claim
  {
    var counted := if script.send && selected.Some? then Counted(c.keys, selected.value, c.seen, script, published)
                   else (c.keys, !script.handled);
    c.(keys := counted.0, lease := c.lease.(finished := true), stamp := c.stamp + 1,
       table := A.CompletedTable(c.table, c.lease, id, Reported(script.ending, counted.1), script.end, c.stamp, script.jitter, hints))
  }

  function GivenUp(c: Call): Call {
    if c.claim.None? then c else c.(keys := K.Finished(c.keys.pool, c.keys.retry, c.claim.value))
  }

  ghost function Called(c: Call, id: nat, script: Script, published: bool, hints: seq<A.Target>): Call
    requires Shaped(c) && |hints| == |c.lease.targets|
  {
    var checked := Checked(c, id, script.checks);
    GivenUp(Ended(checked.0, id, checked.1, script, published, hints))
  }

  ghost predicate OnlyReleased(before: A.Entries, after: A.Entries) {
    && after.Keys == before.Keys
    && forall t :: t in after ==>
         after[t] == before[t]
         || (before[t].probing && after[t] == before[t].(probing := false, owner := None))
  }

  // An untrusted end gives claims up and records nothing.
  lemma {:induction false} UntrustedRecordsNothing(l: A.Lease, n: nat, entries: A.Entries, ending: A.Ending, now: Time, stamp: nat,
                                                   jitter: nat -> nat, hints: seq<A.Target>)
    requires |l.recorded| == |l.targets| == |hints| && n <= |l.targets|
    ensures OnlyReleased(entries, A.SettledTo(l, n, entries, Reported(ending, false), now, stamp, jitter, hints))
  {
    if n > 0 {
      var r := Reported(ending, false);
      UntrustedRecordsNothing(l, n - 1, entries, ending, now, stamp, jitter, hints);
      var before := A.SettledTo(l, n - 1, entries, r, now, stamp, jitter, hints);
      UntrustedTurn(before, l.targets[n - 1], l.recorded[n - 1], ending, now, stamp, jitter, hints[n - 1]);
      hide A.Settled;
    }
  }

  lemma UntrustedTurn(entries: A.Entries, t: A.Target, recorded: Option<nat>, ending: A.Ending, now: Time, stamp: nat,
                      jitter: nat -> nat, hint: A.Target)
    ensures OnlyReleased(entries, A.Settled(entries, t, recorded, Reported(ending, false), now, stamp, jitter, hint))
  {
    hide A.Put, A.NextEntry;
    var previous := A.Previous(entries, t);
    if previous.Some? {
      assert entries[t := previous.value.(probing := false, owner := None)].Keys == entries.Keys;
    }
  }

  class RouteCall {
    const pool: P.ProviderKeyPool
    const availability: S.AvailabilityState
    const lease: S.AvailabilityLease
    const provider: string
    ghost const others: map<nat, A.Lease>
    var claim: Option<K.Lease>
    var completed: bool
    var seen: K.Observation

    // The claim on the pool is this call's own, and so is the lease.
    ghost predicate Holding()
      reads this`claim, pool`probe, pool.retry`probe
    {
      claim.Some? ==> pool.probe == claim && (claim.value.server || pool.retry.probe != claim)
    }

    ghost predicate Valid()
      reads this, pool, pool.cooldowns, pool.failures, pool.versions, pool.retry, availability, lease
    {
      && pool.Valid() && Holding() && completed == lease.finished && |lease.recorded| == |lease.targets|
      && lease.id !in others && R.Inv(SystemOf(availability, lease, others))
    }

    ghost function View(): Call
      reads this, pool, pool.cooldowns, pool.failures, pool.versions, pool.retry, availability, lease
    {
      Call(availability.View(), lease.View(), availability.stamp, claim, K.Joint(pool.View(), pool.retry.View()), seen)
    }

    ghost predicate Published()
      reads availability
    {
      availability.epoch == lease.epoch
      && GenerationOf(lease.targets) == if provider in availability.generations then availability.generations[provider] else 0
    }

    constructor (pool: P.ProviderKeyPool, availability: S.AvailabilityState, lease: S.AvailabilityLease, provider: string,
                 claim: Option<K.Lease>, ghost others: map<nat, A.Lease>)
      requires pool.Valid() && lease.id !in others && R.Inv(SystemOf(availability, lease, others)) && !lease.finished
      requires |lease.recorded| == |lease.targets|
      requires claim.Some? ==> pool.probe == claim && (claim.value.server || pool.retry.probe != claim)
      ensures Valid() && !completed && this.pool == pool && this.availability == availability && this.lease == lease
      ensures this.provider == provider && this.claim == claim && this.others == others && seen == K.Observation(0, 0, 0)
    {
      this.pool, this.availability, this.lease, this.provider := pool, availability, lease, provider;
      this.claim, this.others, completed := claim, others, false;
      seen := K.Observation(0, 0, 0);
    }

    method Redispatch(now: Time) returns (blocked: bool)
      requires Valid() && !completed
      modifies availability`entries, availability`nextSweep, availability`stamp, lease`recorded, lease`seen
      ensures Valid()
      ensures var d := A.Dispatched(old(availability.View()), old(lease.View()), lease.id, now, old(availability.stamp));
              && blocked == d.blockedBy.Some?
              && View() == old(View()).(table := d.table, lease := d.lease, stamp := old(availability.stamp) + 1)
    {
      hide R.Inv, A.Dispatched, Holding;
      OpenLease(availability.View(), lease.View(), others, lease.id, availability.stamp);
      R.DispatchKeepsInv(SystemOf(availability, lease, others), lease.id, now);
      ghost var before := SystemOf(availability, lease, others);
      var refusal := availability.DispatchLease(lease, now);
      assert before.leases[lease.id := lease.View()] == others[lease.id := lease.View()];
      blocked := refusal.Some?;
    }

    method Reclaim(now: Time) returns (claimed: bool)
      requires Valid()
      modifies this`claim, pool`probe, pool.retry`probe
      ensures Valid() && completed == old(completed)
      ensures (View(), claimed) == Reclaimed(old(View()), lease.id, now)
    {
      hide R.Inv;
      claimed := true;
      if claim.None? {
        var admission := pool.BeginRateRecovery(lease.id, now);
        match admission
        case NoLease =>
        case Granted(granted) => claim := Some(granted);
        case _ => claimed := false;
      }
    }

    method Ready(check: Check) returns (ready: bool)
      requires Valid() && !completed
      modifies this`claim, this`seen, availability`entries, availability`nextSweep, availability`stamp
      modifies lease`recorded, lease`seen, pool`probe, pool.retry`probe, pool.cooldowns
      ensures Valid() && !completed
      ensures (View(), ready) == Rechecked(old(View()), lease.id, check)
    {
      hide R.Inv, A.Dispatched, K.Begun, Holding;
      var blocked := Redispatch(check.now);
      if blocked || check.index < 0 || check.index >= pool.versions.Length {
        return false;
      }
      var claimed := Reclaim(check.now);
      if !claimed {
        return false;
      }
      var delay, observation;
      ready, delay, observation := pool.CandidateStateAt(check.index, check.now);
      if ready {
        seen := observation;
      }
    }

    // Server waits concern the provider; other failures cool the key they hit.
    method Failed(index: int, f: KeyFailure, now: Time, jitter: nat -> nat)
      requires Valid()
      modifies pool`streak, pool`version, pool`providerUntil, pool.cooldowns, pool.failures, pool.versions
      modifies pool.retry`version, pool.retry`until
      ensures Valid()
      ensures K.Joint(pool.View(), pool.retry.View())
              == FailedEffect(old(pool.View()), old(pool.retry.View()), index, f, now, jitter, Published())
    {
      hide R.Inv, K.RateLimited, K.Cooled;
      if f.notSent {
        return;
      }
      var serverUntil := 0;
      if f.provided {
        serverUntil := pool.HoldProviderUntil(f.until);
      }
      var current := availability.WithCurrent(lease.epoch, provider, GenerationOf(lease.targets));
      if current {
        if f.rateLimited {
          var delay, providerDelay, streak := pool.RateLimitedAt(index, RateWait(f, serverUntil, now), f.provided, now, jitter);
        } else if serverUntil == 0 && f.credential {
          pool.CooldownAt(index, f.cooldown, now);
        }
      }
    }

    // The result is recorded before the gate is released; a success that an
    // observation contradicts says nothing about health.
    method Completed(index: int, ending: A.Ending, now: Time, jitter: nat -> nat) returns (ghost hints: seq<A.Target>)
      requires Valid() && !completed && A.Classified(ending)
      modifies this`completed, availability`entries, availability`nextSweep, availability`stamp, lease`finished
      modifies pool`streak, pool`providerUntil, pool.failures, pool.retry`until, pool.retry`version
      ensures Valid() && completed && |hints| == |lease.targets| && availability.stamp == old(availability.stamp) + 1
      ensures var success := K.Succeeded(old(pool.View()), old(pool.retry.View()), index, seen);
              var counted := old(Published()) && !ending.failed;
              && K.Joint(pool.View(), pool.retry.View())
                 == (if counted then success.0 else K.Joint(old(pool.View()), old(pool.retry.View())))
              && availability.View()
                 == A.CompletedTable(old(availability.View()), old(lease.View()), lease.id,
                                     Reported(ending, old(Published()) && (ending.failed || success.1)), now,
                                     old(availability.stamp), jitter, hints)
    {
      hide R.Inv, K.Succeeded, A.CompletedTable;
      var stale := false;
      var current := availability.WithCurrent(lease.epoch, provider, GenerationOf(lease.targets));
      if current && !ending.failed {
        var cleared := pool.RateSucceeded(index, seen);
        stale := !cleared;
      }
      hints := CompleteHealth(Reported(ending, current && !stale), now, jitter);
    }

    method CompleteHealth(ending: A.Ending, now: Time, jitter: nat -> nat) returns (ghost hints: seq<A.Target>)
      requires Valid() && !completed && A.Classified(ending)
      modifies this`completed, availability`entries, availability`nextSweep, availability`stamp, lease`finished
      ensures Valid() && completed && |hints| == |lease.targets| && availability.stamp == old(availability.stamp) + 1
      ensures availability.View() == A.CompletedTable(old(availability.View()), old(lease.View()), lease.id, ending, now,
                                                      old(availability.stamp), jitter, hints)
    {
      hide R.Inv, A.CompletedTable, Holding;
      ghost var before, open := SystemOf(availability, lease, others), lease.View();
      OpenLease(availability.View(), open, others, lease.id, availability.stamp);
      var confirmed;
      confirmed, hints := availability.CompleteLease(lease, ending, now, jitter);
      CompletionStep(before, lease.id, ending, now, jitter, hints);
      assert before.leases[lease.id := open.(finished := true)] == others[lease.id := lease.View()];
      completed := true;
    }

    method Check(checks: seq<Check>) returns (selected: Option<int>)
      requires Valid() && !completed
      modifies this`claim, this`seen, availability`entries, availability`nextSweep, availability`stamp
      modifies lease`recorded, lease`seen, pool`probe, pool.retry`probe, pool.cooldowns
      ensures Valid() && !completed
      ensures (View(), selected) == Checked(old(View()), lease.id, checks)
    {
      hide Rechecked, Holding, R.Inv;
      selected := None;
      for k := 0 to |checks|
        invariant Valid() && !completed
        invariant (View(), selected) == Checked(old(View()), lease.id, checks[..k])
      {
        assert checks[..k + 1][..k] == checks[..k];
        var ready := Ready(checks[k]);
        selected := if ready then Some(checks[k].index) else None;
      }
      assert checks[..|checks|] == checks;
    }

    method End(selected: Option<int>, script: Script) returns (ghost hints: seq<A.Target>)
      requires Valid() && !completed && A.Classified(script.ending)
      modifies this`completed, availability`entries, availability`nextSweep, availability`stamp, lease`finished
      modifies pool`streak, pool`version, pool`providerUntil, pool.cooldowns, pool.failures, pool.versions
      modifies pool.retry`until, pool.retry`version
      ensures Valid() && completed && |hints| == |lease.targets|
      ensures View() == Ended(old(View()), lease.id, selected, script, Published(), hints)
    {
      hide R.Inv, Holding, FailedEffect, K.Succeeded, A.CompletedTable;
      if script.send && selected.Some? {
        if script.failure.Some? {
          Failed(selected.value, script.failure.value, script.end, script.jitter);
        }
        hints := Completed(selected.value, script.ending, script.end, script.jitter);
      } else {
        hints := CompleteHealth(Reported(script.ending, !script.handled), script.end, script.jitter);
      }
    }

    // Whatever the adapter does and however it ends, the lease is completed
    // exactly once and neither claim survives the call.
    method Run(script: Script) returns (ghost hints: seq<A.Target>)
      requires Valid() && !completed && A.Classified(script.ending)
      modifies this, availability`entries, availability`nextSweep, availability`stamp
      modifies lease`recorded, lease`seen, lease`finished, pool`probe, pool`streak, pool`version, pool`providerUntil
      modifies pool.cooldowns, pool.failures, pool.versions, pool.retry
      ensures pool.Valid() && completed && lease.finished && R.Unowned(availability.entries, lease.id)
      ensures R.Inv(SystemOf(availability, lease, others))
      ensures claim.Some? ==> pool.probe != claim && pool.retry.probe != claim
      ensures |hints| == |lease.targets| && View() == Called(old(View()), lease.id, script, Published(), hints)
    {
      hide R.Inv, Holding, Checked, Ended;
      var selected := Check(script.checks);
      hints := End(selected, script);
      FinishedOwnsNothing(availability.View(), lease.View(), others, lease.id, availability.stamp);
      GiveUp();
    }

    method GiveUp()
      requires Valid()
      modifies pool`probe, pool.retry`probe
      ensures pool.Valid() && (claim.Some? ==> pool.probe != claim && pool.retry.probe != claim)
      ensures View() == GivenUp(old(View()))
    {
      hide R.Inv;
      if claim.Some? {
        pool.FinishRateRecovery(claim.value);
      }
    }
  }

  // A call that was admitted by both gates, as it starts.
  function Admitted(t: A.Table, keys: K.Joint, stamp: nat, id: nat, epoch: nat, targets: seq<A.Target>, now: Time): Call {
    var begun := K.Begun(keys.pool, keys.retry, id, now);
    var d := A.Dispatched(t, A.NewLease(epoch, targets), id, now, stamp);
    Call(d.table, d.lease, stamp + 1, if begun.1.Granted? then Some(begun.1.lease) else None, begun.0, K.Observation(0, 0, 0))
  }

  predicate Waits(keys: K.Joint, id: nat, now: Time) {
    var admission := K.Begun(keys.pool, keys.retry, id, now).1;
    admission.InProgress? || admission.Cooling?
  }

  // The second gate.
  method AdmitLease(availability: S.AvailabilityState, id: nat, epoch: nat, provider: string, model: string, generation: nat, now: Time,
                    ghost others: map<nat, A.Lease>)
    returns (admitted: Option<S.AvailabilityLease>)
    requires R.Inv(R.System(availability.View(), others, availability.stamp))
    requires R.Enabled(R.System(availability.View(), others, availability.stamp), R.Begin(id, epoch, provider, model, generation, now))
    modifies availability`entries, availability`nextSweep, availability`stamp
    ensures var targets := A.TargetsOf(provider, model, generation);
            var d := A.Dispatched(old(availability.View()), A.NewLease(epoch, targets), id, now, old(availability.stamp));
            && availability.View() == d.table && availability.stamp == old(availability.stamp) + 1
            && (admitted.Some? <==> d.blockedBy.None?)
            && (admitted.None? ==> R.Unowned(availability.entries, id))
            && (admitted.Some? ==>
                  var lease := admitted.value;
                  && fresh(lease) && lease.id == id && lease.View() == d.lease && !lease.finished && |lease.recorded| == |lease.targets|
                  && lease.targets == targets && lease.epoch == epoch && R.Inv(SystemOf(availability, lease, others)))
  {
    Begins(R.System(availability.View(), others, availability.stamp), R.Begin(id, epoch, provider, model, generation, now));
    hide R.Inv, R.Apply, R.Enabled, R.Unowned, A.Dispatched, A.TargetsOf, A.NewLease;
    var lease, refusal := availability.BeginLease(id, epoch, provider, model, generation, now);
    admitted := if refusal.None? then Some(lease) else None;
  }

  // Both gates, the pool's first; the claim is given back when the second refuses.
  method Admit(pool: P.ProviderKeyPool, availability: S.AvailabilityState, id: nat, epoch: nat, provider: string,
               model: string, generation: nat, now: Time, ghost others: map<nat, A.Lease>)
    returns (admitted: Option<S.AvailabilityLease>, claim: Option<K.Lease>)
    requires pool.Valid() && R.Inv(R.System(availability.View(), others, availability.stamp))
    requires R.Enabled(R.System(availability.View(), others, availability.stamp), R.Begin(id, epoch, provider, model, generation, now))
    modifies availability`entries, availability`nextSweep, availability`stamp, pool`probe, pool.retry`probe
    ensures pool.Valid()
    ensures var keys, targets := K.Joint(old(pool.View()), old(pool.retry.View())), A.TargetsOf(provider, model, generation);
            var d := A.Dispatched(old(availability.View()), A.NewLease(epoch, targets), id, now, old(availability.stamp));
            && (admitted.Some? <==> !Waits(keys, id, now) && d.blockedBy.None?)
            && (admitted.None? ==>
                  && K.Joint(pool.View(), pool.retry.View()) == keys && R.Unowned(availability.entries, id)
                  && availability.View() == if Waits(keys, id, now) then old(availability.View()) else d.table)
            && (admitted.Some? ==>
                  var lease := admitted.value;
                  && fresh(lease) && lease.id == id && !lease.finished && |lease.recorded| == |lease.targets| && lease.targets == targets
                  && lease.epoch == epoch && R.Inv(SystemOf(availability, lease, others))
                  && (claim.Some? ==> pool.probe == claim && (claim.value.server || pool.retry.probe != claim))
                  && Call(availability.View(), lease.View(), availability.stamp, claim, K.Joint(pool.View(), pool.retry.View()),
                          K.Observation(0, 0, 0))
                     == Admitted(old(availability.View()), keys, old(availability.stamp), id, epoch, targets, now))
    ensures admitted.None? && claim.Some? ==> pool.probe != claim && pool.retry.probe != claim
  {
    R.NobodyOwns(R.System(availability.View(), others, availability.stamp), id);
    hide R.Inv, R.Enabled, R.Unowned, A.Dispatched, A.TargetsOf, A.NewLease, K.Begun, K.Finished, SystemOf;
    var admission := pool.BeginRateRecovery(id, now);
    if admission.InProgress? || admission.Cooling? {
      return None, None;
    }
    claim := if admission.Granted? then Some(admission.lease) else None;
    admitted := AdmitLease(availability, id, epoch, provider, model, generation, now, others);
    if admitted.None? && claim.Some? {
      pool.FinishRateRecovery(claim.value);
    }
  }

  // The whole call: a refusal leaves no claim behind, and neither does a run.
  method CallRoute(pool: P.ProviderKeyPool, availability: S.AvailabilityState, id: nat, epoch: nat, provider: string,
                   model: string, generation: nat, script: Script, ghost others: map<nat, A.Lease>)
    returns (admitted: bool, claim: Option<K.Lease>, ghost hints: seq<A.Target>)
    requires pool.Valid() && A.Classified(script.ending)
    requires R.Inv(R.System(availability.View(), others, availability.stamp))
    requires R.Enabled(R.System(availability.View(), others, availability.stamp),
                       R.Begin(id, epoch, provider, model, generation, script.start))
    modifies availability`entries, availability`nextSweep, availability`stamp
    modifies pool`probe, pool`streak, pool`version, pool`providerUntil
    modifies pool.cooldowns, pool.failures, pool.versions, pool.retry
    ensures pool.Valid() && R.Unowned(availability.entries, id)
    ensures claim.Some? ==> pool.probe != claim && pool.retry.probe != claim
    ensures var keys, targets := K.Joint(old(pool.View()), old(pool.retry.View())), A.TargetsOf(provider, model, generation);
            var d := A.Dispatched(old(availability.View()), A.NewLease(epoch, targets), id, script.start, old(availability.stamp));
            && (admitted <==> !Waits(keys, id, script.start) && d.blockedBy.None?)
            && (!admitted ==>
                  && K.Joint(pool.View(), pool.retry.View()) == keys
                  && availability.View() == if Waits(keys, id, script.start) then old(availability.View()) else d.table)
            && (admitted ==>
                  && |hints| == |targets|
                  && var c := Admitted(old(availability.View()), keys, old(availability.stamp), id, epoch, targets, script.start);
                     var after := Called(c, id, script, IsPublished(old(availability.View()), epoch, provider, targets), hints);
                     availability.View() == after.table && K.Joint(pool.View(), pool.retry.View()) == after.keys && claim == after.claim)
  {
    hide R.Inv, A.Dispatched, Admitted, Called, Waits, A.TargetsOf, R.Unowned;
    hints := [];
    var lease;
    lease, claim := Admit(pool, availability, id, epoch, provider, model, generation, script.start, others);
    admitted := lease.Some?;
    if admitted {
      var call := new RouteCall(pool, availability, lease.value, provider, claim, others);
      hints := call.Run(script);
      claim := call.claim;
    }
  }

  lemma RefusedOwnsNothing(s: R.System, id: nat)
    requires R.Inv(s) && id in s.leases
    ensures s.leases[id].finished ==> R.Unowned(s.table.entries, id)
  {
    if s.leases[id].finished {
      forall u | u in s.table.entries ensures s.table.entries[u].owner != Some(id) {
        assert R.EntryOk(s, u, s.table.entries[u]);
      }
    }
  }

  // What the first dispatch of a new lease leaves, admitted or refused.
  lemma Begins(s: R.System, a: R.Action)
    requires R.Inv(s) && a.Begin? && R.Enabled(s, a)
    ensures var l := A.NewLease(a.epoch, A.TargetsOf(a.provider, a.model, a.generation));
            var d := A.Dispatched(s.table, l, a.id, a.now, s.stamp);
            && R.Unowned(s.table.entries, a.id)
            && !d.lease.finished && d.lease.epoch == a.epoch && d.lease.targets == l.targets
            && (if d.blockedBy.Some? then R.Unowned(d.table.entries, a.id)
                else R.Inv(R.System(d.table, s.leases[a.id := d.lease], s.stamp + 1)))
  {
    R.NobodyOwns(s, a.id);
    R.BeginKeepsInv(s, a);
    RefusedOwnsNothing(R.Apply(s, a), a.id);
    var l := A.NewLease(a.epoch, A.TargetsOf(a.provider, a.model, a.generation));
    R.NotFinished(s.table, l, a.id, a.now, s.stamp);
    var d := A.Dispatched(s.table, l, a.id, a.now, s.stamp);
    assert d.lease.(finished := false) == d.lease;
    hide R.Inv, R.Unowned, A.FirstBlock, A.Claimed, A.Pruned;
  }

  lemma OpenLease(t: A.Table, l: A.Lease, others: map<nat, A.Lease>, id: nat, stamp: nat)
    requires R.Inv(R.System(t, others[id := l], stamp))
    ensures A.LeaseShape(l)
  {
    hide R.EntryOk, R.ClaimOk;
    var s := R.System(t, others[id := l], stamp);
    assert R.LeaseOk(s, s.leases[id]);
  }

  lemma CompletionStep(s: R.System, id: nat, ending: A.Ending, now: Time, jitter: nat -> nat, hints: seq<A.Target>)
    requires R.Inv(s) && id in s.leases && !s.leases[id].finished && A.LeaseShape(s.leases[id])
    requires A.Classified(ending) && |hints| == |s.leases[id].targets|
    ensures R.Inv(R.System(A.CompletedTable(s.table, s.leases[id], id, ending, now, s.stamp, jitter, hints),
                           s.leases[id := s.leases[id].(finished := true)], s.stamp + 1))
  {
    hide R.Inv, A.CompletedTable;
    R.CompleteKeepsInv(s, R.Complete(id, ending, now, jitter, hints));
  }

  lemma FinishedOwnsNothing(t: A.Table, l: A.Lease, others: map<nat, A.Lease>, id: nat, stamp: nat)
    requires R.Inv(R.System(t, others[id := l], stamp)) && l.finished
    ensures R.Unowned(t.entries, id)
  {
    var s := R.System(t, others[id := l], stamp);
    forall u | u in t.entries ensures t.entries[u].owner != Some(id) {
      assert R.EntryOk(s, u, s.table.entries[u]);
    }
  }
}
