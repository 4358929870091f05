// What one request through internal/gateway/route_recovery.go:99-145 means for
// the next: it goes out only to targets, a provider and a key that rest no
// longer, changes no health without an attempt, and records how that ended.
module RouteOutcome {
  import opened Basics
  import opened RecoveryBackoff
  import opened RouteRecovery
  import A = Availability
  import K = KeyPool
  import R = AvailabilityRuns
  import Rest = AvailabilityRest

  // ----- When a request goes out -----

  // No target of the lease rests or is probed by another request.
  predicate TargetsAreFree(c: Call, now: Time)
    requires Shaped(c)
  {
    var entries := A.Pruned(c.table, now).entries;
    c.lease.epoch == c.table.epoch ==>
      forall i :: 0 <= i < |c.lease.targets| && c.lease.targets[i] in entries ==>
        var e := entries[c.lease.targets[i]];
        e.failures == 0 || (e.probing && c.lease.recorded[i] == Some(e.id)) || (!e.probing && e.retryAt <= now)
  }

  // The request holds the shared claim, or nobody does and no wait is in force.
  predicate ProviderIsFree(c: Call, now: Time) {
    || c.claim.Some?
    || (c.keys.pool.probe.None? && c.keys.retry.probe.None? && (c.keys.pool.streak > 0 ==> c.keys.pool.providerUntil <= now)
        && (c.keys.retry.until > 0 ==> c.keys.pool.providerUntil <= now))
  }

  lemma RecheckMeans(c: Call, id: nat, check: Check)
    requires Shaped(c)
    ensures Rechecked(c, id, check).1 <==>
              && 0 <= check.index < |c.keys.pool.cooldowns| && TargetsAreFree(c, check.now) && ProviderIsFree(c, check.now)
              && c.keys.pool.cooldowns[check.index] <= check.now && c.keys.retry.until <= check.now
  {
    DispatchMeans(c, id, check.now);
    hide A.Dispatched, A.Pruned, TargetsAreFree;
  }

  lemma DispatchMeans(c: Call, id: nat, now: Time)
    requires Shaped(c)
    ensures A.Dispatched(c.table, c.lease, id, now, c.stamp).blockedBy.None? <==> TargetsAreFree(c, now)
  {
    hide A.Pruned;
    R.FirstBlockIsFirst(c.lease, 0, A.Pruned(c.table, now).entries, now);
    if c.lease.epoch == c.table.epoch {
      forall i | 0 <= i < |c.lease.targets|
        ensures A.Blocks(c.lease, i, A.Pruned(c.table, now).entries, now) <==>
                c.lease.targets[i] in A.Pruned(c.table, now).entries
                && var e := A.Pruned(c.table, now).entries[c.lease.targets[i]];
                   !(e.failures == 0 || (e.probing && c.lease.recorded[i] == Some(e.id)) || (!e.probing && e.retryAt <= now))
      {
      }
    }
  }

  // Main result: whatever was checked before, a candidate is only taken in a
  // state in which the last check of it found everything free.
  lemma GoesOutWhenFree(c: Call, id: nat, checks: seq<Check>)
    requires Shaped(c) && Checked(c, id, checks).1.Some?
    ensures checks != []
    ensures var last, before := checks[|checks| - 1], Checked(c, id, checks[..|checks| - 1]).0;
            && Checked(c, id, checks).1 == Some(last.index) && 0 <= last.index < |before.keys.pool.cooldowns|
            && TargetsAreFree(before, last.now) && ProviderIsFree(before, last.now)
            && before.keys.pool.cooldowns[last.index] <= last.now && before.keys.retry.until <= last.now
  {
    var last, before := checks[|checks| - 1], Checked(c, id, checks[..|checks| - 1]).0;
    RecheckMeans(before, id, last);
    hide TargetsAreFree, ProviderIsFree, Rechecked;
  }

  // ----- Without an attempt -----

  // Nothing but probes, and cooldowns that are over, may differ.
  ghost predicate SameKeyHealth(before: K.Joint, after: K.Joint) {
    && after.retry == before.retry.(probe := after.retry.probe)
    && after.pool == before.pool.(cooldowns := after.pool.cooldowns, probe := after.pool.probe)
    && |after.pool.cooldowns| == |before.pool.cooldowns|
    && forall k :: 0 <= k < |before.pool.cooldowns| ==> after.pool.cooldowns[k] in {0, before.pool.cooldowns[k]}
  }

  // Nothing but who probes may differ, and what is a day old may be gone.
  ghost predicate SameTargetHealth(before: A.Table, after: A.Table) {
    && after.epoch == before.epoch && after.generations == before.generations
    && forall t :: t in after.entries ==> t in before.entries && Rest.SameHealth(before.entries[t], after.entries[t])
  }

  lemma RecheckKeepsHealth(c: Call, id: nat, check: Check)
    requires Shaped(c)
    ensures SameKeyHealth(c.keys, Rechecked(c, id, check).0.keys)
    ensures SameTargetHealth(c.table, Rechecked(c, id, check).0.table)
  {
    hide A.FirstBlock;
  }

  lemma {:induction false} ChecksKeepHealth(c: Call, id: nat, checks: seq<Check>)
    requires Shaped(c)
    ensures SameKeyHealth(c.keys, Checked(c, id, checks).0.keys)
    ensures SameTargetHealth(c.table, Checked(c, id, checks).0.table)
  {
    hide Rechecked;
    if checks != [] {
      var n := |checks| - 1;
      ChecksKeepHealth(c, id, checks[..n]);
      RecheckKeepsHealth(Checked(c, id, checks[..n]).0, id, checks[n]);
    }
  }

  // Main result: a request that found no candidate, or was not sent, leaves the
  // health of keys and provider as it was.
  lemma WithoutAttempt(c: Call, id: nat, script: Script, published: bool, hints: seq<A.Target>)
    requires Shaped(c) && |hints| == |c.lease.targets|
    requires !script.send || Checked(c, id, script.checks).1.None?
    ensures SameKeyHealth(c.keys, Called(c, id, script, published, hints).keys)
  {
    ChecksKeepHealth(c, id, script.checks);
    hide Checked, A.CompletedTable;
  }

  // ----- What an attempt leaves behind -----

  ghost predicate Remembers(c: Call)
    requires Shaped(c)
  {
    forall i :: 0 <= i < |c.lease.targets| ==> c.lease.recorded[i] == A.At(c.table.entries, c.lease.targets[i])
  }

  lemma TakenIsRemembered(c: Call, id: nat, checks: seq<Check>)
    requires Shaped(c) && Checked(c, id, checks).1.Some? && c.lease.epoch == c.table.epoch
    ensures var k := Checked(c, id, checks).0;
            && Remembers(k) && k.lease.epoch == k.table.epoch && k.table.epoch == c.table.epoch && k.table.generations == c.table.generations
            && 0 <= Checked(c, id, checks).1.value < |k.keys.pool.cooldowns|
            && k.seen == K.Observation(k.keys.pool.versions[Checked(c, id, checks).1.value], k.keys.pool.version, k.keys.retry.version)
  {
    var n := |checks| - 1;
    var before := Checked(c, id, checks[..n]).0;
    ChecksKeepHealth(c, id, checks[..n]);
    ChecksKeepEpoch(c, id, checks[..n]);
    ReadyIsRemembered(before, id, checks[n]);
    hide Rechecked, Remembers;
  }

  lemma {:induction false} ChecksKeepEpoch(c: Call, id: nat, checks: seq<Check>)
    requires Shaped(c)
    ensures Checked(c, id, checks).0.lease.epoch == c.lease.epoch
  {
    if checks != [] {
      ChecksKeepEpoch(c, id, checks[..|checks| - 1]);
    }
    hide A.FirstBlock, A.Claimed, A.Pruned;
  }

  lemma ReadyIsRemembered(c: Call, id: nat, check: Check)
    requires Shaped(c) && Rechecked(c, id, check).1 && c.lease.epoch == c.table.epoch
    ensures var k := Rechecked(c, id, check).0;
            && Remembers(k) && k.lease.epoch == k.table.epoch && k.table.epoch == c.table.epoch && k.table.generations == c.table.generations
            && 0 <= check.index < |k.keys.pool.cooldowns|
            && k.seen == K.Observation(k.keys.pool.versions[check.index], k.keys.pool.version, k.keys.retry.version)
  {
    hide A.FirstBlock;
  }

  // A target that the lease remembers is written, whatever the other's turn does,
  // if it is still in the table.
  lemma KnownIsWritten(l: A.Lease, entries: A.Entries, r: A.Ending, now: Time, stamp: nat, jitter: nat -> nat, hints: seq<A.Target>, k: nat)
    requires A.LeaseShape(l) && k < |l.targets| && |hints| == |l.targets|
    requires A.Success(r) || A.Blames(r, l.targets[k])
    requires l.targets[k] in entries ==> l.recorded[k] == Some(entries[l.targets[k]].id)
    requires l.targets[k] in A.SettledTo(l, |l.targets|, entries, r, now, stamp, jitter, hints)
    ensures A.SettledTo(l, |l.targets|, entries, r, now, stamp, jitter, hints)[l.targets[k]]
            == A.NextEntry(l.targets[k], A.Previous(entries, l.targets[k]), r, now, stamp, jitter)
  {
    hide A.NextEntry, A.Evictable, A.Victim;
    var first := A.SettledTo(l, 1, entries, r, now, stamp, jitter, hints);
    assert A.SettledTo(l, 0, entries, r, now, stamp, jitter, hints) == entries;
    Rest.TurnWrites(entries, l.targets[0], l.recorded[0], r, now, stamp, jitter, hints[0], l.targets[k]);
    if |l.targets| == 2 {
      Rest.TurnWrites(first, l.targets[1], l.recorded[1], r, now, stamp, jitter, hints[1], l.targets[k]);
    }
    hide A.Settled;
  }

  // A call whose result counts: sent on a view that was and is the published one.
  ghost predicate Counts(c: Call, id: nat, script: Script) {
    && A.LeaseShape(c.lease) && Shaped(c) && c.lease.epoch == c.table.epoch
    && (forall i :: 0 <= i < |c.lease.targets| ==> A.Current(c.table, c.lease.targets[i]))
    && script.send && Checked(c, id, script.checks).1.Some?
  }

  // Main result: after a success key, provider and targets are as if they had
  // never failed.
  lemma SuccessHeals(c: Call, id: nat, script: Script, hints: seq<A.Target>, k: nat)
    requires Counts(c, id, script) && |hints| == |c.lease.targets| && k < |c.lease.targets|
    requires A.Success(script.ending) && script.failure.None?
    ensures var after, index := Called(c, id, script, true, hints), Checked(c, id, script.checks).1.value;
            && 0 <= index < |after.keys.pool.failures| && after.keys.pool.failures[index] == 0
            && after.keys.pool.streak == 0 && after.keys.pool.providerUntil == 0 && after.keys.retry.until == 0
            && (c.lease.targets[k] in after.table.entries ==>
                  var e := after.table.entries[c.lease.targets[k]];
                  e.failures == 0 && e.retryAt == 0 && e.reason == "" && !e.probing && e.lastSuccess == script.end)
  {
    TakenIsRemembered(c, id, script.checks);
    SettledWhenCounted(c, id, script, hints, k);
    hide A.CompletedTable, Checked;
  }

  // Main result: after a failure that blames a target, the target rests.
  lemma FailureRests(c: Call, id: nat, script: Script, hints: seq<A.Target>, k: nat)
    requires Counts(c, id, script) && |hints| == |c.lease.targets| && k < |c.lease.targets|
    requires script.ending.failed && !script.ending.handled && !script.ending.cancelled
    requires script.ending.reason != "" && script.ending.modelScope == (c.lease.targets[k].model != "")
    requires !(script.ending.reason == "rate_limited" && script.ending.wait.Some?)
    ensures var after := Called(c, id, script, true, hints);
            c.lease.targets[k] in after.table.entries ==>
              var e := after.table.entries[c.lease.targets[k]];
              e.failures >= 1 && e.reason == script.ending.reason && !e.probing
              && script.end + ROUTE_COOLDOWN <= e.retryAt <= script.end + DAY
  {
    SettledWhenCounted(c, id, script, hints, k);
    var known := Checked(c, id, script.checks).0;
    Rest.FailureIsCounted(c.lease.targets[k], A.Previous(A.Pruned(known.table, script.end).entries, c.lease.targets[k]), script.ending, script.end,
                          known.stamp, script.jitter);
    hide A.CompletedTable, Checked, A.NextEntry, A.Pruned, FailedEffect;
  }

  lemma SettledWhenCounted(c: Call, id: nat, script: Script, hints: seq<A.Target>, k: nat)
    requires Counts(c, id, script) && |hints| == |c.lease.targets| && k < |c.lease.targets|
    requires A.Success(script.ending) || A.Blames(script.ending, c.lease.targets[k])
    ensures var known := Checked(c, id, script.checks).0;
            var t := c.lease.targets[k];
            var after := A.CompletedTable(known.table, known.lease, id, script.ending, script.end, known.stamp, script.jitter, hints);
            t in after.entries ==>
              after.entries[t] == A.NextEntry(t, A.Previous(A.Pruned(known.table, script.end).entries, t), script.ending, script.end,
                                              known.stamp, script.jitter)
  {
    TakenIsRemembered(c, id, script.checks);
    var known := Checked(c, id, script.checks).0;
    var entries := A.Pruned(known.table, script.end).entries;
    hide Checked, A.NextEntry, A.SettledTo;
    if c.lease.targets[k] in A.SettledTo(known.lease, |known.lease.targets|, entries, script.ending, script.end, known.stamp,
                                         script.jitter, hints) {
      KnownIsWritten(known.lease, entries, script.ending, script.end, known.stamp, script.jitter, hints, k);
    }
  }

  // Main result: a request whose view was replaced meanwhile may lengthen the
  // server wait, which concerns the provider in every view, and says nothing else.
  lemma ReplacedViewSaysNothing(c: Call, id: nat, script: Script, hints: seq<A.Target>)
    requires Shaped(c) && |hints| == |c.lease.targets| && script.send && Checked(c, id, script.checks).1.Some?
    ensures var after := Called(c, id, script, false, hints);
            && SameTargetHealth(c.table, after.table)
            && after.keys.retry.until >= c.keys.retry.until
            && after.keys.pool.failures == c.keys.pool.failures && after.keys.pool.streak == c.keys.pool.streak
            && after.keys.pool.providerUntil == c.keys.pool.providerUntil && after.keys.pool.versions == c.keys.pool.versions
            && |after.keys.pool.cooldowns| == |c.keys.pool.cooldowns|
            && forall k :: 0 <= k < |c.keys.pool.cooldowns| ==> after.keys.pool.cooldowns[k] in {0, c.keys.pool.cooldowns[k]}
  {
    ChecksKeepHealth(c, id, script.checks);
    var known := Checked(c, id, script.checks).0;
    UntrustedTable(known, id, script, hints);
    if script.failure.Some? {
      UnpublishedFailureKeepsKeys(known.keys.pool, known.keys.retry, Checked(c, id, script.checks).1.value, script.failure.value, script.end,
                                  script.jitter);
    }
    hide Checked, A.CompletedTable, FailedEffect, Rest.SameHealth;
  }

  lemma UntrustedTable(c: Call, id: nat, script: Script, hints: seq<A.Target>)
    requires Shaped(c) && |hints| == |c.lease.targets|
    ensures SameTargetHealth(c.table, A.CompletedTable(c.table, c.lease, id, Reported(script.ending, false), script.end, c.stamp,
                                                       script.jitter, hints))
  {
    var entries := A.Pruned(c.table, script.end).entries;
    UntrustedRecordsNothing(c.lease, |c.lease.targets|, entries, script.ending, script.end, c.stamp, script.jitter, hints);
    hide A.SettledTo;
  }
}
