// The availability object and its leases (internal/gateway/availability.go).
// Each locked method is shown to be the step of module Availability on the
// table and the lease; `stamp` hands out the identities of records.
module AvailabilityState {
  import opened Basics
  import opened RecoveryBackoff
  import opened Availability

  class AvailabilityLease {
    const id: nat
    const epoch: nat
    const targets: seq<Target>
    var recorded: seq<Option<nat>>
    ghost var finished: bool
    ghost var seen: nat

    ghost function View(): Lease
      reads this
    {
      Lease(epoch, targets, recorded, finished, seen)
    }

    constructor (id: nat, epoch: nat, targets: seq<Target>)
      ensures View() == NewLease(epoch, targets) && this.id == id && |recorded| == |this.targets|
    {
      this.id, this.epoch, this.targets := id, epoch, targets;
      recorded := seq(|targets|, i => None);
      finished, seen := false, 0;
    }
  }

  // ----- Loops over the table: what is done when some keys are left -----

  ghost predicate PartlySwept(entries: Entries, current: Entries, left: set<Target>, now: Time) {
    && current.Keys == (set t | t in entries && (t in left || !Stale(entries[t], now)))
    && forall t :: t in current && t in entries ==> current[t] == entries[t]
  }

  lemma Swept(entries: Entries, current: Entries, now: Time)
    requires PartlySwept(entries, current, {}, now)
    ensures current == PrunedEntries(entries, now)
  {
  }

  ghost predicate PartlyScanned(entries: Entries, left: set<Target>, candidate: Option<Target>) {
    && (candidate.Some? ==> candidate.value in entries && !entries[candidate.value].probing)
    && forall t :: t in entries && t !in left && !entries[t].probing ==>
         candidate.Some? && candidate.value in entries && entries[candidate.value].touched <= entries[t].touched
  }

  lemma Scanned(entries: Entries, candidate: Option<Target>, other: Target)
    requires PartlyScanned(entries, {}, candidate)
    ensures candidate.Some? ==> Victim(entries, candidate.value) == candidate
    ensures candidate.None? ==> Victim(entries, other) == None
  {
    if candidate.Some? {
      assert Evictable(entries, candidate.value);
    }
  }

  ghost predicate PartlyActivated(entries: Entries, current: Entries, left: set<Target>, generations: map<string, nat>,
                                  valid: Target -> bool, stamp: nat) {
    && current.Keys == (set t | t in entries && (t in left || Survives(t, generations, valid)))
    && forall t :: t in current && t in entries ==> current[t] == if t in left then entries[t] else entries[t].(id := stamp)
  }

  lemma ActivatedStart(entries: Entries, generations: map<string, nat>, valid: Target -> bool, stamp: nat)
    ensures PartlyActivated(entries, entries, entries.Keys, generations, valid, stamp)
  {
  }

  lemma ActivatedStep(entries: Entries, current: Entries, left: set<Target>, generations: map<string, nat>,
                      valid: Target -> bool, stamp: nat, t: Target)
    requires t in left && t in entries && left <= entries.Keys
    requires PartlyActivated(entries, current, left, generations, valid, stamp)
    ensures t in current
    ensures PartlyActivated(entries, if Survives(t, generations, valid) then current[t := current[t].(id := stamp)] else current - {t},
                            left - {t}, generations, valid, stamp)
  {
    hide Survives;
  }

  lemma ActivatedAll(entries: Entries, current: Entries, generations: map<string, nat>, valid: Target -> bool, stamp: nat)
    requires PartlyActivated(entries, current, {}, generations, valid, stamp)
    ensures current == map t | t in entries && Survives(t, generations, valid) :: entries[t].(id := stamp)
  {
  }

  ghost predicate PartlyClaimed(l: Lease, id: nat, n: nat, entries: Entries, current: Entries) {
    && current.Keys == entries.Keys && n <= |l.targets|
    && forall t :: t in entries && t in current ==>
         current[t] == if (exists i :: 0 <= i < n && l.targets[i] == t) && entries[t].failures > 0 && !entries[t].probing
                       then entries[t].(probing := true, owner := Some(id)) else entries[t]
  }

  ghost predicate PartlyReleased(l: Lease, id: nat, n: nat, entries: Entries, current: Entries, stamp: nat) {
    && current.Keys == entries.Keys && n <= |l.targets|
    && forall t :: t in entries && t in current ==>
         current[t] == if (exists i :: 0 <= i < n && l.targets[i] == t) && entries[t].owner == Some(id)
                       then entries[t].(id := stamp, probing := false, owner := None) else entries[t]
  }

  lemma ClaimedStep(l: Lease, id: nat, n: nat, entries: Entries, current: Entries)
    requires DistinctTargets(l) && n < |l.targets| && PartlyClaimed(l, id, n, entries, current)
    ensures var t := l.targets[n];
            && At(current, t) == At(entries, t)
            && (t in current ==> current[t] == entries[t])
            && PartlyClaimed(l, id, n + 1, entries,
                 if t in current && current[t].failures > 0 && !current[t].probing
                 then current[t := current[t].(probing := true, owner := Some(id))] else current)
  {
  }

  lemma ClaimedAll(l: Lease, id: nat, entries: Entries, current: Entries)
    requires PartlyClaimed(l, id, |l.targets|, entries, current)
    ensures current == Claimed(l, id, entries)
  {
  }

  lemma ReleasedStep(l: Lease, id: nat, n: nat, entries: Entries, current: Entries, stamp: nat)
    requires DistinctTargets(l) && n < |l.targets| && PartlyReleased(l, id, n, entries, current, stamp)
    ensures var t := l.targets[n];
            PartlyReleased(l, id, n + 1, entries,
              if t in current && current[t].owner == Some(id)
              then current[t := current[t].(id := stamp, probing := false, owner := None)] else current, stamp)
  {
  }

  lemma ReleasedAll(l: Lease, id: nat, entries: Entries, current: Entries, stamp: nat)
    requires PartlyReleased(l, id, |l.targets|, entries, current, stamp)
    ensures current == Released(entries, l, id, stamp)
  {
  }

  ghost predicate Free(entries: Entries, t: Target, now: Time) {
    t in entries && entries[t].failures > 0 ==> !entries[t].probing && now >= entries[t].retryAt
  }

  class AvailabilityState {
    var epoch: nat
    var generations: map<string, nat>
    var entries: Entries
    var nextSweep: Time
    var stamp: nat

    ghost function View(): Table
      reads this
    {
      Table(epoch, generations, entries, nextSweep)
    }

    constructor ()
      ensures View() == Table(0, map[], map[], 0) && stamp == 0
    {
      epoch, generations, entries, nextSweep, stamp := 0, map[], map[], 0, 0;
    }

    // Health that belongs to the view is changed only while that view is the
    // published one. A provider without a generation counts as generation 0.
    method WithCurrent(epoch: nat, provider: string, generation: nat) returns (current: bool)
      ensures current <==> this.epoch == epoch
                           && generation == if provider in generations then generations[provider] else 0
    {
      var known := if provider in generations then generations[provider] else 0;
      current := this.epoch == epoch && known == generation;
    }

    method Prune(now: Time)
      modifies this`entries, this`nextSweep
      ensures View() == Pruned(old(View()), now)
    {
      if now < nextSweep {
        return;
      }
      hide PrunedEntries, Stale;
      ghost var was := entries;
      var left := entries.Keys;
      while left != {}
        invariant left <= was.Keys && PartlySwept(was, entries, left, now)
        decreases |left|
      {
        var t :| t in left;
        StaleMeans(was, t, now);
        if !entries[t].probing && now - entries[t].touched >= DAY {
          entries := entries - {t};
        }
        left := left - {t};
      }
      Swept(was, entries, now);
      nextSweep := now + MINUTE;
    }

    // On a full table the least recently touched record that is not probing
    // makes room; with none, nothing is stored.
    method PutEntry(t: Target, e: Entry) returns (stored: bool, ghost hint: Target)
      modifies this`entries
      ensures entries == Put(old(entries), t, e, hint) && (stored <==> t in entries)
    {
      hide Evictable, Victim;
      hint := t;
      if t !in entries && |entries| >= LIMIT {
        var candidate: Option<Target> := None;
        var left := entries.Keys;
        while left != {}
          invariant left <= entries.Keys && PartlyScanned(entries, left, candidate)
          decreases |left|
        {
          var k :| k in left;
          if !entries[k].probing && (candidate.None? || entries[k].touched < entries[candidate.value].touched) {
            candidate := Some(k);
          }
          left := left - {k};
        }
        Scanned(entries, candidate, t);
        if candidate.None? {
          return false, t;
        }
        hint := candidate.value;
        entries := entries - {candidate.value};
      }
      entries := entries[t := e];
      stored := true;
    }

    method Activate(epoch: nat, generations: map<string, nat>, valid: Target -> bool)
      modifies this
      ensures View() == Activated(old(View()), epoch, generations, valid, old(stamp)) && stamp == old(stamp) + 1
    {
      hide Survives, PartlyActivated;
      ghost var was := entries;
      ActivatedStart(was, generations, valid, stamp);
      this.epoch := epoch;
      this.generations := generations;
      var left := entries.Keys;
      while left != {}
        invariant left <= was.Keys && PartlyActivated(was, entries, left, generations, valid, stamp)
        invariant stamp == old(stamp) && this.epoch == epoch && this.generations == generations && nextSweep == old(nextSweep)
        decreases |left|
      {
        var t :| t in left;
        SurvivesMeans(t, generations, valid);
        ActivatedStep(was, entries, left, generations, valid, stamp, t);
        if t.provider !in generations || generations[t.provider] != t.generation || (t.model != "" && !valid(t)) {
          entries := entries - {t};
        } else {
          entries := entries[t := entries[t].(id := stamp)];
        }
        left := left - {t};
      }
      ActivatedAll(was, entries, generations, valid, stamp);
      stamp := stamp + 1;
    }

    // A route may be chosen when neither its provider nor its model is failing,
    // or the failure is due for a probe and none is out.
    method Available(epoch: nat, provider: string, model: string, generation: nat, now: Time) returns (available: bool)
      modifies this`entries, this`nextSweep
      ensures View() == if epoch == this.epoch then Pruned(old(View()), now) else old(View())
      ensures epoch != this.epoch ==> available
      ensures epoch == this.epoch ==> (available <==>
                Free(entries, Target(provider, "", generation), now) && Free(entries, Target(provider, model, generation), now))
    {
      if epoch != this.epoch {
        return true;
      }
      Prune(now);
      var p, m := Target(provider, "", generation), Target(provider, model, generation);
      available := (p !in entries || Eligible(entries[p], now)) && (m !in entries || Eligible(entries[m], now));
    }

    method FindBlock(l: AvailabilityLease, now: Time) returns (blocked: Option<nat>)
      requires |l.recorded| == |l.targets|
      ensures blocked == FirstBlock(l.View(), 0, entries, now)
    {
      var i := 0;
      while i < |l.targets|
        invariant 0 <= i <= |l.targets| && FirstBlock(l.View(), i, entries, now) == FirstBlock(l.View(), 0, entries, now)
      {
        var t := l.targets[i];
        if t in entries && entries[t].failures > 0 && !(entries[t].probing && l.recorded[i] == Some(entries[t].id))
           && !Eligible(entries[t], now) {
          return Some(i);
        }
        i := i + 1;
      }
      blocked := None;
    }

    method ClaimTargets(l: AvailabilityLease)
      requires |l.recorded| == |l.targets| && DistinctTargets(l.View())
      modifies this`entries, l`recorded
      ensures entries == Claimed(old(l.View()), l.id, old(entries))
      ensures |l.recorded| == |l.targets| && l.recorded == Recorded(l.targets, old(entries))
    {
      ghost var was, view := entries, l.View();
      hide At;
      var i := 0;
      while i < |l.targets|
        invariant 0 <= i <= |l.targets| && |l.recorded| == |l.targets| && PartlyClaimed(view, l.id, i, was, entries)
        invariant forall j :: 0 <= j < i ==> l.recorded[j] == At(was, l.targets[j])
      {
        var t := l.targets[i];
        ClaimedStep(view, l.id, i, was, entries);
        AtMeans(entries, t);
        l.recorded := l.recorded[i := if t in entries then Some(entries[t].id) else None];
        if t in entries && entries[t].failures > 0 && !entries[t].probing {
          entries := entries[t := entries[t].(probing := true, owner := Some(l.id))];
        }
        i := i + 1;
      }
      ClaimedAll(view, l.id, was, entries);
    }

    // Rechecked at the last moment before the request goes out, and never after
    // the lease was completed.
    method DispatchLease(l: AvailabilityLease, now: Time) returns (refusal: Option<Refusal>)
      requires |l.recorded| == |l.targets| && DistinctTargets(l.View()) && !l.finished
      modifies this`entries, this`nextSweep, this`stamp, l`recorded, l`seen
      ensures |l.recorded| == |l.targets| && stamp == old(stamp) + 1
      ensures var d := Dispatched(old(View()), old(l.View()), l.id, now, old(stamp));
              && View() == d.table && l.View() == d.lease && (refusal.Some? <==> d.blockedBy.Some?)
              && (refusal.Some? ==>
                    && d.blockedBy.value < |l.targets| && l.targets[d.blockedBy.value] in entries
                    && refusal == Some(RefusalBy(entries[l.targets[d.blockedBy.value]], now)))
    {
      hide Pruned, Claimed, FirstBlock, Recorded;
      stamp := stamp + 1;
      if l.epoch != epoch {
        return None;
      }
      Prune(now);
      var blocked := FindBlock(l, now);
      if blocked.Some? {
        BlockIsPresent(l.View(), 0, entries, now);
        return Some(RefusalBy(entries[l.targets[blocked.value]], now));
      }
      ClaimTargets(l);
      l.seen := stamp - 1;
      refusal := None;
    }

    method BeginLease(id: nat, epoch: nat, provider: string, model: string, generation: nat, now: Time)
      returns (l: AvailabilityLease, refusal: Option<Refusal>)
      modifies this`entries, this`nextSweep, this`stamp
      ensures fresh(l) && l.id == id && |l.recorded| == |l.targets| && stamp == old(stamp) + 1
      ensures var d := Dispatched(old(View()), NewLease(epoch, TargetsOf(provider, model, generation)), id, now, old(stamp));
              View() == d.table && l.View() == d.lease && (refusal.Some? <==> d.blockedBy.Some?)
    {
      hide Dispatched, Pruned, Claimed;
      l := new AvailabilityLease(id, epoch, TargetsOf(provider, model, generation));
      refusal := DispatchLease(l, now);
    }

    method ReleaseTargets(l: AvailabilityLease)
      requires DistinctTargets(l.View())
      modifies this`entries
      ensures entries == Released(old(entries), l.View(), l.id, stamp)
    {
      ghost var was, view := entries, l.View();
      var i := 0;
      while i < |l.targets|
        invariant 0 <= i <= |l.targets| && PartlyReleased(view, l.id, i, was, entries, stamp)
      {
        var t := l.targets[i];
        ReleasedStep(view, l.id, i, was, entries, stamp);
        if t in entries && entries[t].owner == Some(l.id) {
          entries := entries[t := entries[t].(id := stamp, probing := false, owner := None)];
        }
        i := i + 1;
      }
      ReleasedAll(view, l.id, was, entries, stamp);
    }

    method SettleTarget(t: Target, recorded: Option<nat>, r: Ending, now: Time, jitter: nat -> nat) returns (ghost hint: Target)
      modifies this`entries
      ensures entries == Settled(old(entries), t, recorded, r, now, stamp, jitter, hint)
    {
      hide Put, NextEntry;
      hint := t;
      var previous := if t in entries then Some(entries[t]) else None;
      if (if previous.Some? then Some(previous.value.id) else None) != recorded {
        return;
      }
      if Success(r) || Fails(r, t, previous) {
        var next := NextRecord(t, previous, r, now, stamp, jitter);
        var stored;
        stored, hint := PutEntry(t, next);
      } else if previous.Some? && previous.value.probing {
        entries := entries[t := previous.value.(probing := false, owner := None)];
      }
    }

    // The end of an attempt; true when it confirmed that the route works.
    method CompleteLease(l: AvailabilityLease, r: Ending, now: Time, jitter: nat -> nat)
      returns (confirmed: bool, ghost hints: seq<Target>)
      requires |l.recorded| == |l.targets| && DistinctTargets(l.View()) && !l.finished
      modifies this`entries, this`nextSweep, this`stamp, l`finished
      ensures |hints| == |l.targets| && l.finished && stamp == old(stamp) + 1
      ensures View() == CompletedTable(old(View()), old(l.View()), l.id, r, now, old(stamp), jitter, hints)
      ensures confirmed <==>
                Success(r) && l.epoch == epoch && forall i :: 0 <= i < |l.targets| ==> Current(View(), l.targets[i])
    {
      hide Pruned, Settled, Released;
      ghost var view := l.View();
      hints := l.targets;
      if l.epoch != epoch {
        ReleaseTargets(l);
        SameRelease(old(entries), l.View(), view, l.id, stamp);
        stamp, l.finished := stamp + 1, true;
        return false, hints;
      }
      var i := 0;
      while i < |l.targets|
        invariant 0 <= i <= |l.targets| && forall j :: 0 <= j < i ==> Current(View(), l.targets[j])
      {
        var t := l.targets[i];
        if t.provider !in generations || generations[t.provider] != t.generation {
          assert !Current(View(), l.targets[i]);
          stamp, l.finished := stamp + 1, true;
          return false, hints;
        }
        i := i + 1;
      }
      Prune(now);
      hints := SettleTargets(l, r, now, jitter);
      confirmed := Success(r);
      stamp, l.finished := stamp + 1, true;
      PrunedKeepsView(old(View()), now);
    }

    method SettleTargets(l: AvailabilityLease, r: Ending, now: Time, jitter: nat -> nat) returns (ghost hints: seq<Target>)
      requires |l.recorded| == |l.targets|
      modifies this`entries
      ensures |hints| == |l.targets|
      ensures entries == SettledTo(l.View(), |l.targets|, old(entries), r, now, stamp, jitter, hints)
    {
      hide Settled;
      ghost var was, view := entries, l.View();
      hints := l.targets;
      var i := 0;
      while i < |l.targets|
        invariant 0 <= i <= |l.targets| && |hints| == |l.targets|
        invariant entries == SettledTo(view, i, was, r, now, stamp, jitter, hints)
      {
        ghost var hint := SettleTarget(l.targets[i], l.recorded[i], r, now, jitter);
        LaterHint(view, i, was, r, now, stamp, jitter, hints, hint);
        hints := hints[i := hint];
        i := i + 1;
      }
    }
  }

  method NextRecord(t: Target, previous: Option<Entry>, r: Ending, now: Time, stamp: nat, jitter: nat -> nat) returns (next: Entry)
    ensures next == NextEntry(t, previous, r, now, stamp, jitter)
  {
    hide Delay;
    next := Blank(now, stamp);
    if previous.Some? {
      next := previous.value.(id := stamp, touched := now, probing := false, owner := None);
    }
    if Success(r) {
      return next.(lastSuccess := now, reason := "", failures := 0, retryAt := 0);
    }
    if Blames(r, t) {
      next := next.(reason := r.reason);
    }
    if next.failures < 16 {
      next := next.(failures := next.failures + 1);
    }
    next := next.(lastFailure := now);
    if r.reason == "rate_limited" && r.wait.Some? {
      next := next.(failures := if r.wait.value.failures == 0 then 1 else r.wait.value.failures,
                    retryAt := if r.wait.value.until != 0 then r.wait.value.until else now + r.cooldown);
    } else {
      var delay := BoundedRecoveryBackoff(next.reason, next.failures, r.cooldown, jitter);
      next := next.(retryAt := now + delay);
    }
  }

  lemma StaleMeans(entries: Entries, t: Target, now: Time)
    ensures t in entries ==> (Stale(entries[t], now) <==> !entries[t].probing && now - entries[t].touched >= DAY)
  {
  }

  lemma SurvivesMeans(t: Target, generations: map<string, nat>, valid: Target -> bool)
    ensures Survives(t, generations, valid) <==>
              !(t.provider !in generations || generations[t.provider] != t.generation || (t.model != "" && !valid(t)))
  {
  }

  lemma AtMeans(entries: Entries, t: Target)
    ensures At(entries, t) == if t in entries then Some(entries[t].id) else None
  {
  }

  lemma {:induction false} BlockIsPresent(l: Lease, i: nat, entries: Entries, now: Time)
    requires |l.recorded| == |l.targets|
    ensures var b := FirstBlock(l, i, entries, now); b.Some? ==> b.value < |l.targets| && l.targets[b.value] in entries
    decreases |l.targets| - i
  {
    if i < |l.targets| && !Blocks(l, i, entries, now) {
      BlockIsPresent(l, i + 1, entries, now);
    }
  }

  lemma SameRelease(entries: Entries, l: Lease, m: Lease, id: nat, stamp: nat)
    requires l.targets == m.targets
    ensures Released(entries, l, id, stamp) == Released(entries, m, id, stamp)
  {
    assert forall t :: Covers(l, t) == Covers(m, t);
  }

  lemma PrunedKeepsView(s: Table, now: Time)
    ensures Pruned(s, now).epoch == s.epoch && Pruned(s, now).generations == s.generations
  {
  }

  lemma {:induction false} LaterHint(l: Lease, n: nat, entries: Entries, r: Ending, now: Time, stamp: nat, jitter: nat -> nat,
                                     hints: seq<Target>, hint: Target)
    requires |l.recorded| == |l.targets| == |hints| && n < |l.targets|
    ensures SettledTo(l, n, entries, r, now, stamp, jitter, hints[n := hint]) == SettledTo(l, n, entries, r, now, stamp, jitter, hints)
  {
    LaterHints(l, n, entries, r, now, stamp, jitter, hints, hints[n := hint]);
  }

  lemma {:induction false} LaterHints(l: Lease, n: nat, entries: Entries, r: Ending, now: Time, stamp: nat, jitter: nat -> nat,
                                      hints: seq<Target>, others: seq<Target>)
    requires |l.recorded| == |l.targets| == |hints| == |others| && n <= |l.targets|
    requires forall i :: 0 <= i < n ==> hints[i] == others[i]
    ensures SettledTo(l, n, entries, r, now, stamp, jitter, hints) == SettledTo(l, n, entries, r, now, stamp, jitter, others)
  {
    hide Settled;
    if n > 0 {
      LaterHints(l, n - 1, entries, r, now, stamp, jitter, hints, others);
    }
  }
}
