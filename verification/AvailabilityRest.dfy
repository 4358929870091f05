// What a failure does to later requests (internal/gateway/availability.go:36-38,
// 177-239 and 377-430): its target rests, and only a completion ends that.
module AvailabilityRest {
  import opened Basics
  import opened RecoveryBackoff
  import opened Availability
  import opened AvailabilityRuns

  // ----- A resting target blocks -----

  // Whoever dispatches on a target that rests, or is probed by another, is refused.
  lemma RestingTargetBlocks(states: seq<System>, actions: seq<Action>, i: nat, id: nat, now: Time, t: Target)
    requires Run(states, actions) && i < |states|
    requires id in states[i].leases && !states[i].leases[id].finished && states[i].leases[id].epoch == states[i].table.epoch
    requires Covers(states[i].leases[id], t) && t in Pruned(states[i].table, now).entries
    requires var e := Pruned(states[i].table, now).entries[t];
             e.failures > 0 && (e.probing || now < e.retryAt) && e.owner != Some(id)
    ensures LeaseShape(states[i].leases[id])
    ensures Dispatched(states[i].table, states[i].leases[id], id, now, states[i].stamp).blockedBy.Some?
  {
    DispatchIsExclusive(states, actions, i, id, now);
    hide Run, Dispatched, Pruned;
  }

  // A new request is refused just so, and is told exactly how long the rest lasts.
  lemma NewRequestIsRefused(s: Table, id: nat, provider: string, model: string, generation: nat, now: Time, stamp: nat, t: Target)
    requires t in Pruned(s, now).entries && t in TargetsOf(provider, model, generation)
    requires var e := Pruned(s, now).entries[t]; e.failures > 0 && (e.probing || now < e.retryAt)
    ensures var l := NewLease(s.epoch, TargetsOf(provider, model, generation));
            var d := Dispatched(s, l, id, now, stamp);
            && d.blockedBy.Some? && d.blockedBy.value < |l.targets| && l.targets[d.blockedBy.value] in Pruned(s, now).entries
            && d.lease == l && d.table == Pruned(s, now)
            && var blocker := Pruned(s, now).entries[l.targets[d.blockedBy.value]];
               var refusal := RefusalBy(blocker, now);
               if blocker.probing then refusal.probing else !refusal.probing && now + refusal.delay == blocker.retryAt > now
  {
    hide Pruned, SafeModel;
    var l := NewLease(s.epoch, TargetsOf(provider, model, generation));
    var k :| 0 <= k < |l.targets| && l.targets[k] == t;
    FirstBlockIsFirst(l, 0, Pruned(s, now).entries, now);
    assert Blocks(l, k, Pruned(s, now).entries, now);
  }

  // ----- What a completion writes -----

  // A blamed target that the lease knows is written, whatever the other target's
  // turn does, unless that turn evicts it.
  lemma BlamedIsWritten(l: Lease, entries: Entries, r: Ending, now: Time, stamp: nat, jitter: nat -> nat, hints: seq<Target>, k: nat)
    requires LeaseShape(l) && k < |l.targets| && |hints| == |l.targets|
    requires !Success(r) && r.reason != "" && r.modelScope == (l.targets[k].model != "")
    requires l.recorded[k] == At(entries, l.targets[k])
    requires l.targets[k] in SettledTo(l, |l.targets|, entries, r, now, stamp, jitter, hints)
    ensures SettledTo(l, |l.targets|, entries, r, now, stamp, jitter, hints)[l.targets[k]]
            == NextEntry(l.targets[k], Previous(entries, l.targets[k]), r, now, stamp, jitter)
  {
    hide NextEntry, Evictable, Victim;
    var first := SettledTo(l, 1, entries, r, now, stamp, jitter, hints);
    assert SettledTo(l, 0, entries, r, now, stamp, jitter, hints) == entries;
    TurnWrites(entries, l.targets[0], l.recorded[0], r, now, stamp, jitter, hints[0], l.targets[k]);
    if |l.targets| == 2 {
      TurnWrites(first, l.targets[1], l.recorded[1], r, now, stamp, jitter, hints[1], l.targets[k]);
    }
    hide Settled;
  }

  // One turn keeps every other record it does not evict, and writes its own.
  lemma TurnWrites(entries: Entries, t: Target, recorded: Option<nat>, r: Ending, now: Time, stamp: nat, jitter: nat -> nat,
                   hint: Target, u: Target)
    ensures var after := Settled(entries, t, recorded, r, now, stamp, jitter, hint);
            && (u != t && u in after ==> u in entries && after[u] == entries[u])
            && (u == t && u in after && recorded == At(entries, t) && (Success(r) || Blames(r, t)) ==>
                  after[t] == NextEntry(t, Previous(entries, t), r, now, stamp, jitter))
            && (u == t && recorded != At(entries, t) ==> after == entries)
  {
    hide NextEntry, Evictable;
  }

  // A failure counts one more, up to sixteen, and rests accordingly; a rate limit
  // of all keys takes over what the key pool knows.
  lemma FailureIsCounted(t: Target, previous: Option<Entry>, r: Ending, now: Time, stamp: nat, jitter: nat -> nat)
    requires !Success(r) && r.reason != "" && r.modelScope == (t.model != "")
    ensures var e := NextEntry(t, previous, r, now, stamp, jitter);
            var before := if previous.Some? then previous.value.failures else 0;
            && e.reason == r.reason && e.lastFailure == now == e.touched && !e.probing && e.owner == None
            && (!(r.reason == "rate_limited" && r.wait.Some?) ==>
                  e.failures == (if before < 16 then before + 1 else before)
                  && now + ROUTE_COOLDOWN <= e.retryAt <= now + DAY && e.retryAt >= now + Min(DAY, r.cooldown))
            && (r.reason == "rate_limited" && r.wait.Some? ==>
                  e.failures >= 1 && (r.wait.value.failures >= 1 ==> e.failures == r.wait.value.failures)
                  && (r.wait.value.until != 0 ==> e.retryAt == r.wait.value.until)
                  && (r.wait.value.until == 0 ==> e.retryAt == now + r.cooldown))
  {
    var before := if previous.Some? then previous.value.failures else 0;
    DelayBounds(r.reason, if before < 16 then before + 1 else before, r.cooldown, jitter);
    hide Delay;
  }

  // ----- Who may change a record's health -----

  predicate SameHealth(e: Entry, f: Entry) {
    f == e.(id := f.id, probing := f.probing, owner := f.owner)
  }

  lemma {:induction false} OthersAreKept(l: Lease, n: nat, entries: Entries, r: Ending, now: Time, stamp: nat, jitter: nat -> nat,
                                         hints: seq<Target>, t: Target)
    requires |l.recorded| == |l.targets| == |hints| && n <= |l.targets| && !Covers(l, t)
    ensures var after := SettledTo(l, n, entries, r, now, stamp, jitter, hints);
            t in after ==> t in entries && after[t] == entries[t]
  {
    hide Settled;
    if n > 0 {
      OthersAreKept(l, n - 1, entries, r, now, stamp, jitter, hints, t);
      TurnWrites(SettledTo(l, n - 1, entries, r, now, stamp, jitter, hints), l.targets[n - 1], l.recorded[n - 1], r, now, stamp,
                 jitter, hints[n - 1], t);
    }
  }

  ghost predicate Settles(s: System, a: Action, t: Target) {
    a.Complete? && a.id in s.leases && Covers(s.leases[a.id], t)
  }

  // Every step but the completion of a lease that covers a target leaves its
  // health alone, if it leaves the record at all.
  lemma StepKeepsHealth(s: System, a: Action, t: Target)
    requires Enabled(s, a) && t in Apply(s, a).table.entries && !Settles(s, a, t)
    ensures t in s.table.entries && SameHealth(s.table.entries[t], Apply(s, a).table.entries[t])
  {
    hide SettledTo, FirstBlock, LeaseShape, Recorded, TargetsOf;
    if a.Complete? {
      var l, p := s.leases[a.id], Pruned(s.table, a.now);
      assert LeaseShape(l) ==> |l.recorded| == |l.targets| by { ShapeLengths(l); }
      OthersAreKept(l, |l.targets|, p.entries, a.result, a.now, s.stamp, a.jitter, a.hints, t);
    }
  }

  lemma ShapeLengths(l: Lease)
    ensures LeaseShape(l) ==> |l.recorded| == |l.targets|
  {
  }

  // From i to j the record at t stands: it is there all the time and no lease
  // that covers it completes.
  ghost predicate Stands(states: seq<System>, actions: seq<Action>, i: nat, j: nat, t: Target) {
    && j < |states| && |states| == |actions| + 1
    && (forall k :: i <= k <= j ==> t in states[k].table.entries)
    && (forall k :: i <= k < j ==> !Settles(states[k], actions[k], t))
  }

  lemma {:induction false} StandingKeepsHealth(states: seq<System>, actions: seq<Action>, i: nat, j: nat, t: Target)
    requires Run(states, actions) && i <= j && Stands(states, actions, i, j, t)
    ensures SameHealth(states[i].table.entries[t], states[j].table.entries[t])
  {
    hide Enabled, Apply, Settles;
    if i < j {
      StandingKeepsHealth(states, actions, i, j - 1, t);
      StepKeepsHealth(states[j - 1], actions[j - 1], t);
    }
  }

  // Main result: a completion that blames a target its lease knows, at T, keeps
  // every new request of the published view off that target until T plus the
  // cooldown, whatever happens meanwhile, as long as the record stands.
  lemma RestIsHonoured(states: seq<System>, actions: seq<Action>, i: nat, j: nat, k: nat, id: nat, provider: string, model: string,
                       generation: nat, now: Time)
    requires Run(states, actions) && i < j < |states| && actions[i].Complete?
    requires var a := actions[i];
             && a.id in states[i].leases && states[i].leases[a.id].epoch == states[i].table.epoch
             && k < |states[i].leases[a.id].targets| == |states[i].leases[a.id].recorded|
             && var l, r := states[i].leases[a.id], a.result;
                var t := l.targets[k];
                && r.reason != "" && r.modelScope == (t.model != "") && !(r.reason == "rate_limited" && r.wait.Some?)
                && l.recorded[k] == At(Pruned(states[i].table, a.now).entries, t)
                && Stands(states, actions, i + 1, j, t) && t in TargetsOf(provider, model, generation)
                && now < a.now + ROUTE_COOLDOWN
    ensures var s := states[j];
            Dispatched(s.table, NewLease(s.table.epoch, TargetsOf(provider, model, generation)), id, now, s.stamp).blockedBy.Some?
  {
    var a, s := actions[i], states[j];
    var l := states[i].leases[a.id];
    var t := l.targets[k];
    WrittenAtCompletion(states, actions, i, k);
    StandingKeepsHealth(states, actions, i + 1, j, t);
    hide Run, Apply, Enabled, TargetsOf, CompletedTable;
    FailureIsCounted(t, Previous(Pruned(states[i].table, a.now).entries, t), a.result, a.now, states[i].stamp, a.jitter);
    hide NextEntry;
    assert t in Pruned(s.table, now).entries;
    NewRequestIsRefused(s.table, id, provider, model, generation, now, s.stamp, t);
  }

  lemma WrittenAtCompletion(states: seq<System>, actions: seq<Action>, i: nat, k: nat)
    requires Run(states, actions) && i < |actions| && actions[i].Complete?
    requires var a := actions[i];
             && a.id in states[i].leases && states[i].leases[a.id].epoch == states[i].table.epoch
             && k < |states[i].leases[a.id].targets| == |states[i].leases[a.id].recorded|
             && var l, r := states[i].leases[a.id], a.result;
                var t := l.targets[k];
                && r.reason != "" && r.modelScope == (t.model != "") && l.recorded[k] == At(Pruned(states[i].table, a.now).entries, t)
                && t in states[i + 1].table.entries
    ensures var a := actions[i];
            var t := states[i].leases[a.id].targets[k];
            !Success(a.result)
            && states[i + 1].table.entries[t]
               == NextEntry(t, Previous(Pruned(states[i].table, a.now).entries, t), a.result, a.now, states[i].stamp, a.jitter)
  {
    RunKeepsInv(states, actions, i);
    var s, a := states[i], actions[i];
    assert Enabled(s, a) && states[i + 1] == Apply(s, a);
    hide Run;
    assert LeaseOk(s, s.leases[a.id]);
    CurrentLease(s, s.leases[a.id]);
    hide Inv, NextEntry, SettledTo;
    BlamedIsWritten(s.leases[a.id], Pruned(s.table, a.now).entries, a.result, a.now, s.stamp, a.jitter, a.hints, k);
  }

  // ----- Probes that settle nothing -----

  // An unclassified end of a probe that was sent extends the rest and keeps the
  // old reason; one that was not sent, was cancelled or handled gives it up as it
  // was. Without a probe it says nothing.
  lemma UnclassifiedEnd(entries: Entries, t: Target, recorded: Option<nat>, r: Ending, now: Time, stamp: nat, jitter: nat -> nat, hint: Target)
    requires t in entries && recorded == Some(entries[t].id) && !Success(r) && r.reason == ""
    ensures var e := entries[t];
            var after := Settled(entries, t, recorded, r, now, stamp, jitter, hint);
            && after.Keys == entries.Keys && (forall u :: u in entries && u != t ==> after[u] == entries[u])
            && (!e.probing ==> after == entries)
            && (e.probing && (r.handled || r.cancelled || !r.attempted) ==> after[t] == e.(probing := false, owner := None))
            && (e.probing && !r.handled && !r.cancelled && r.attempted ==>
                  after[t].reason == e.reason && !after[t].probing && after[t].owner == None
                  && after[t].failures == (if e.failures < 16 then e.failures + 1 else e.failures)
                  && now + ROUTE_COOLDOWN <= after[t].retryAt <= now + DAY && after[t].lastSuccess == e.lastSuccess)
  {
    var e := entries[t];
    DelayBounds(e.reason, if e.failures < 16 then e.failures + 1 else e.failures, r.cooldown, jitter);
    hide Delay;
  }

  // A failure is charged to its own scope: the other target hears of it only if
  // it is probed.
  lemma OtherScopeIsSpared(entries: Entries, t: Target, recorded: Option<nat>, r: Ending, now: Time, stamp: nat, jitter: nat -> nat, hint: Target)
    requires !Success(r) && r.reason != "" && r.modelScope != (t.model != "")
    requires t in entries ==> !entries[t].probing
    ensures Settled(entries, t, recorded, r, now, stamp, jitter, hint) == entries
  {
  }

  // What a completion of an outdated generation has to say is ignored, and that
  // of an older view only gives claims up.
  lemma OutdatedIsIgnored(s: Table, l: Lease, id: nat, r: Ending, now: Time, stamp: nat, jitter: nat -> nat, hints: seq<Target>, i: nat)
    requires |l.recorded| == |l.targets| == |hints| && i < |l.targets|
    requires l.targets[i].provider in s.generations ==> s.generations[l.targets[i].provider] != l.targets[i].generation
    ensures var after := CompletedTable(s, l, id, r, now, stamp, jitter, hints);
            && (l.epoch == s.epoch ==> after == s)
            && (l.epoch != s.epoch ==>
                  after.entries.Keys == s.entries.Keys
                  && forall t :: t in s.entries ==>
                       SameHealth(s.entries[t], after.entries[t]) && (after.entries[t].probing ==> s.entries[t].probing))
  {
  }

  // A new record finds room while there are fewer than 4096, and never more.
  lemma RoomMeans(entries: Entries, t: Target, e: Entry, hint: Target)
    ensures t in entries || |entries| < 4096 ==> Put(entries, t, e, hint) == entries[t := e]
    ensures |entries| <= 4096 ==> |Put(entries, t, e, hint)| <= 4096
    ensures t !in entries && |entries| >= 4096 ==> |Put(entries, t, e, hint)| == |entries|
  {
    var v := Victim(entries, hint);
    if t !in entries && |entries| >= 4096 && v.Some? {
      assert Evictable(entries, v.value);
      RemovedOne(entries, v.value);
      AddedOne(entries - {v.value}, t, e);
    } else if t in entries {
      assert entries[t := e].Keys == entries.Keys;
      SameSize(entries[t := e], entries);
    } else {
      AddedOne(entries, t, e);
    }
  }

  lemma SameSize(x: Entries, y: Entries)
    requires x.Keys == y.Keys
    ensures |x| == |y|
  {
    assert |x.Keys| == |x| && |y.Keys| == |y|;
  }

  lemma RemovedOne(entries: Entries, t: Target)
    requires t in entries
    ensures |entries - {t}| == |entries| - 1
  {
    assert (entries - {t}).Keys == entries.Keys - {t};
    assert |(entries - {t}).Keys| == |entries - {t}| && |entries.Keys| == |entries|;
  }

  lemma AddedOne(entries: Entries, t: Target, e: Entry)
    requires t !in entries
    ensures |entries[t := e]| == |entries| + 1
  {
    assert entries[t := e].Keys == entries.Keys + {t};
    assert |entries[t := e].Keys| == |entries[t := e]| && |entries.Keys| == |entries|;
  }

  // ----- Pruning and reload -----

  // At most once a minute, what is idle and was not touched for a day goes.
  lemma PruneMeans(s: Table, now: Time, t: Target)
    ensures var p := Pruned(s, now);
            && (t in p.entries <==>
                  t in s.entries && (now < s.nextSweep || s.entries[t].probing || now < s.entries[t].touched + 86_400_000_000_000))
            && (t in p.entries ==> p.entries[t] == s.entries[t])
            && p.nextSweep == if now < s.nextSweep then s.nextSweep else now + 60_000_000_000
  {
  }

  // A published view keeps exactly the records of its generations whose model it
  // still has, with their health and their probe.
  lemma ReloadMeans(s: Table, epoch: nat, generations: map<string, nat>, valid: Target -> bool, stamp: nat, t: Target)
    ensures var a := Activated(s, epoch, generations, valid, stamp);
            && a.epoch == epoch && a.generations == generations
            && (t in a.entries <==>
                  t in s.entries && t.provider in generations && generations[t.provider] == t.generation && (t.model == "" || valid(t)))
            && (t in a.entries ==>
                  SameHealth(s.entries[t], a.entries[t]) && a.entries[t].probing == s.entries[t].probing
                  && a.entries[t].owner == s.entries[t].owner)
  {
  }

  // A request is leased on its provider, and on its model if the name is short
  // and plain.
  lemma TargetsMean(provider: string, model: string, generation: nat)
    ensures var targets := TargetsOf(provider, model, generation);
            && |targets| >= 1 && targets[0] == Target(provider, "", generation)
            && (|targets| == 2 ==> targets[1] == Target(provider, model, generation) && model != "" && |model| <= 128)
            && |targets| <= 2
            && (model != "" && |model| <= 128 && (forall i :: 0 <= i < |model| ==> 'a' <= model[i] <= 'z') ==> |targets| == 2)
            && (model == "" || |model| > 128 || (exists i :: 0 <= i < |model| && model[i] <= ' ') ==> |targets| == 1)
  {
    if exists i :: 0 <= i < |model| && model[i] <= ' ' {
      var i :| 0 <= i < |model| && model[i] <= ' ';
      assert !SafeModelChar(model[i]);
    }
  }
}
