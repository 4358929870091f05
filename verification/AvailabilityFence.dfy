// Which records can the end of an attempt change? A completion is fenced by the
// identities its lease knew when it last dispatched, and by its epoch
// (internal/gateway/availability.go:99-118 and 349-432).
module AvailabilityFence {
  import opened Basics
  import opened RecoveryBackoff
  import opened Availability
  import opened AvailabilityRuns

  // ----- What is written -----

  lemma WrittenRecord(t: Target, previous: Option<Entry>, r: Ending, now: Time, stamp: nat, jitter: nat -> nat)
    ensures var e := NextEntry(t, previous, r, now, stamp, jitter);
            && !e.probing && e.touched == now
            && (Success(r) ==> e.failures == 0 && e.lastSuccess == now && forall later :: Eligible(e, later))
            && (!Success(r) ==> e.failures > 0 && e.lastFailure == now)
            && (!Success(r) && r.reason == "rate_limited" && r.wait.Some? && r.wait.value.until != 0 ==>
                  e.retryAt == r.wait.value.until)
            && (!Success(r) && !(r.reason == "rate_limited" && r.wait.Some?) ==>
                  now + ROUTE_COOLDOWN <= e.retryAt <= now + DAY)
            && (previous.Some? && !Success(r) ==> e.lastSuccess == previous.value.lastSuccess)
            && (previous.Some? && !Success(r) && !Blames(r, t) ==> e.reason == previous.value.reason)
  {
    var e := NextEntry(t, previous, r, now, stamp, jitter);
    DelayBounds(e.reason, e.failures, r.cooldown, jitter);
  }

  // ----- A later epoch -----

  // A completion from an earlier epoch frees exactly the claims its lease
  // holds, keeps what they say about health, and leaves every other record.
  lemma StaleCompletionOnlyReleases(states: seq<System>, actions: seq<Action>, i: nat, id: nat, r: Ending, now: Time,
                                    jitter: nat -> nat, hints: seq<Target>)
    requires Run(states, actions) && i < |states| && id in states[i].leases
    requires states[i].leases[id].epoch != states[i].table.epoch && LeaseShape(states[i].leases[id])
    requires |hints| == |states[i].leases[id].targets|
    ensures
      var s := states[i];
      var after := CompletedTable(s.table, s.leases[id], id, r, now, s.stamp, jitter, hints).entries;
      && after.Keys == s.table.entries.Keys
      && forall t :: t in after ==>
           if s.table.entries[t].owner == Some(id)
           then !after[t].probing && after[t].owner == None
                && after[t].(id := s.table.entries[t].id, probing := true, owner := Some(id)) == s.table.entries[t]
           else after[t] == s.table.entries[t]
  {
    RunKeepsInv(states, actions, i);
    var s := states[i];
    hide Run, LeaseOk, ClaimOk;
    forall t | t in s.table.entries && s.table.entries[t].owner == Some(id)
      ensures Covers(s.leases[id], t) && s.table.entries[t].probing
    {
      assert EntryOk(s, t, s.table.entries[t]);
    }
  }

  // ----- The same epoch -----

  // A record made after the lease's last dispatch carries an unknown identity.
  predicate Newer(l: Lease, e: Entry) {
    e.id >= l.seen
  }

  lemma NewerIsUnknown(s: System, l: Lease, i: nat)
    requires LeaseOk(s, l) && i < |l.targets| && l.targets[i] in s.table.entries && Newer(l, s.table.entries[l.targets[i]])
    ensures At(s.table.entries, l.targets[i]) != l.recorded[i]
  {
  }

  // A target that is absent, and was so when the lease dispatched, gets a record
  // of its own on a full table, and t is the record that makes room for it.
  ghost predicate MakesRoom(entries: Entries, target: Target, recorded: Option<nat>, r: Ending, hint: Target, t: Target) {
    && target !in entries && recorded == None && (Success(r) || Blames(r, target))
    && |entries| >= LIMIT && Victim(entries, hint) == Some(t)
  }

  ghost predicate Lost(before: Entries, after: Entries, t: Target)
    requires t in before
  {
    t !in after || after[t] != before[t]
  }

  // One target's turn takes a record it does not know exactly to make room.
  lemma TurnLoses(entries: Entries, target: Target, recorded: Option<nat>, r: Ending, now: Time, stamp: nat,
                  jitter: nat -> nat, hint: Target, t: Target)
    requires t in entries && (t == target ==> At(entries, t) != recorded)
    ensures Lost(entries, Settled(entries, target, recorded, r, now, stamp, jitter, hint), t)
            <==> MakesRoom(entries, target, recorded, r, hint, t)
  {
    hide Evictable, NextEntry, Victim;
    VictimInTable(entries, hint);
    var previous := Previous(entries, target);
    assert target !in entries ==> (Fails(r, target, previous) <==> Blames(r, target));
  }

  lemma VictimInTable(entries: Entries, hint: Target)
    ensures Victim(entries, hint).Some? ==> Victim(entries, hint).value in entries
  {
    VictimIsEvictable(entries, hint);
  }

  // A record that a turn lost may come back at the next turn, but as a new one.
  lemma TurnRewrites(entries: Entries, target: Target, recorded: Option<nat>, r: Ending, now: Time, stamp: nat,
                     jitter: nat -> nat, hint: Target, t: Target, last: Entry)
    requires t !in entries && last.id < stamp
    ensures var after := Settled(entries, target, recorded, r, now, stamp, jitter, hint);
            t !in after || after[t] != last
  {
    hide Evictable;
    SettledHasEffect(entries, target, recorded, r, now, stamp, jitter, hint);
  }

  lemma TwoTurnsLose(p: Target, m: Target, entries: Entries, recorded: seq<Option<nat>>, r: Ending, now: Time, stamp: nat,
                     jitter: nat -> nat, hints: seq<Target>, t: Target)
    requires p != m && |recorded| == |hints| == 2 && t in entries && entries[t].id < stamp
    requires (t == p ==> At(entries, t) != recorded[0]) && (t == m ==> At(entries, t) != recorded[1])
    ensures
      var first := Settled(entries, p, recorded[0], r, now, stamp, jitter, hints[0]);
      var after := Settled(first, m, recorded[1], r, now, stamp, jitter, hints[1]);
      Lost(entries, after, t)
      <==> MakesRoom(entries, p, recorded[0], r, hints[0], t) || MakesRoom(first, m, recorded[1], r, hints[1], t)
  {
    var first := Settled(entries, p, recorded[0], r, now, stamp, jitter, hints[0]);
    TurnLoses(entries, p, recorded[0], r, now, stamp, jitter, hints[0], t);
    VictimInTable(first, hints[1]);
    hide Settled, Victim;
    if MakesRoom(entries, p, recorded[0], r, hints[0], t) {
      MadeRoomIsGone(entries, p, recorded[0], r, now, stamp, jitter, hints[0], t);
      TurnRewrites(first, m, recorded[1], r, now, stamp, jitter, hints[1], t, entries[t]);
    } else {
      TurnLoses(first, m, recorded[1], r, now, stamp, jitter, hints[1], t);
    }
  }

  lemma MadeRoomIsGone(entries: Entries, target: Target, recorded: Option<nat>, r: Ending, now: Time, stamp: nat,
                       jitter: nat -> nat, hint: Target, t: Target)
    requires MakesRoom(entries, target, recorded, r, hint, t)
    ensures t !in Settled(entries, target, recorded, r, now, stamp, jitter, hint)
  {
    hide Evictable, NextEntry, Victim;
    VictimInTable(entries, hint);
  }

  // What may happen to records a lease does not know, target by target.
  ghost predicate Displaces(l: Lease, entries: Entries, r: Ending, now: Time, stamp: nat, jitter: nat -> nat, hints: seq<Target>, t: Target)
    requires |l.recorded| == |l.targets| == |hints| && 1 <= |l.targets| <= 2
  {
    || MakesRoom(entries, l.targets[0], l.recorded[0], r, hints[0], t)
    || (|l.targets| == 2
        && MakesRoom(Settled(entries, l.targets[0], l.recorded[0], r, now, stamp, jitter, hints[0]),
                     l.targets[1], l.recorded[1], r, hints[1], t))
  }

  lemma NewerLostInPruned(s: System, l: Lease, r: Ending, now: Time, stamp: nat, jitter: nat -> nat, hints: seq<Target>, t: Target)
    requires Inv(s) && LeaseOk(s, l) && stamp == s.stamp && |hints| == |l.targets|
    requires t in s.table.entries && Newer(l, s.table.entries[t])
    ensures Lost(s.table.entries, SettledTo(l, |l.targets|, s.table.entries, r, now, stamp, jitter, hints), t)
            <==> Displaces(l, s.table.entries, r, now, stamp, jitter, hints, t)
  {
    var entries := s.table.entries;
    assert EntryOk(s, t, entries[t]);
    hide Inv, EntryOk;
    if t == l.targets[0] { NewerIsUnknown(s, l, 0); }
    assert SettledTo(l, 0, entries, r, now, stamp, jitter, hints) == entries;
    if |l.targets| == 1 {
      TurnLoses(entries, l.targets[0], l.recorded[0], r, now, stamp, jitter, hints[0], t);
    } else {
      if t == l.targets[1] { NewerIsUnknown(s, l, 1); }
      TwoTargets(l, l.targets[0], l.targets[1], entries, r, now, stamp, jitter, hints);
      TwoTurnsLose(l.targets[0], l.targets[1], entries, l.recorded, r, now, stamp, jitter, hints, t);
    }
  }

  lemma TwoTargets(l: Lease, p: Target, m: Target, entries: Entries, r: Ending, now: Time, stamp: nat, jitter: nat -> nat, hints: seq<Target>)
    requires l.targets == [p, m] && |l.recorded| == |hints| == 2
    ensures SettledTo(l, 2, entries, r, now, stamp, jitter, hints)
            == Settled(Settled(entries, p, l.recorded[0], r, now, stamp, jitter, hints[0]),
                       m, l.recorded[1], r, now, stamp, jitter, hints[1])
  {
    hide Settled;
    var first := SettledTo(l, 1, entries, r, now, stamp, jitter, hints);
    assert SettledTo(l, 0, entries, r, now, stamp, jitter, hints) == entries;
    assert first == Settled(entries, p, l.recorded[0], r, now, stamp, jitter, hints[0]);
  }

  // In its own epoch a completion loses a record made after its last dispatch,
  // by deletion or by rewriting, exactly when that record makes room on a full
  // table for a target that was and is without one.
  lemma NewerRecordIsLostOnlyToMakeRoom(states: seq<System>, actions: seq<Action>, i: nat, id: nat, r: Ending, now: Time,
                                        jitter: nat -> nat, hints: seq<Target>, t: Target)
    requires Run(states, actions) && i < |states| && id in states[i].leases && !states[i].leases[id].finished
    requires states[i].leases[id].epoch == states[i].table.epoch
    requires |hints| == |states[i].leases[id].targets|
    requires t in Pruned(states[i].table, now).entries && Newer(states[i].leases[id], Pruned(states[i].table, now).entries[t])
    ensures LeaseShape(states[i].leases[id])
    ensures
      var s := states[i];
      var before := Pruned(s.table, now).entries;
      var after := CompletedTable(s.table, s.leases[id], id, r, now, s.stamp, jitter, hints).entries;
      Lost(before, after, t) <==> Displaces(s.leases[id], before, r, now, s.stamp, jitter, hints, t)
  {
    RunKeepsInv(states, actions, i);
    var s := states[i];
    hide Run;
    PruneKeepsInv(s, now);
    PrunedSubset(s.table, now);
    var l := s.leases[id];
    assert LeaseOk(s, l);
    CurrentLease(s, l);
    NewerLostInPruned(s.(table := Pruned(s.table, now)), l, r, now, s.stamp, jitter, hints, t);
  }

  // With room for its targets a completion loses nothing newer, and a probed
  // record is never what makes room.
  lemma RoomLosesNothing(l: Lease, entries: Entries, r: Ending, now: Time, stamp: nat, jitter: nat -> nat, hints: seq<Target>, t: Target)
    requires |l.recorded| == |l.targets| == |hints| && 1 <= |l.targets| <= 2 && t in entries
    requires |entries| + |l.targets| <= LIMIT || entries[t].probing
    ensures Displaces(l, entries, r, now, stamp, jitter, hints, t) ==> |l.targets| == 2 && l.targets[0] == t && Knows(l, 0, entries)
  {
    VictimIsEvictable(entries, hints[0]);
    var first := Settled(entries, l.targets[0], l.recorded[0], r, now, stamp, jitter, hints[0]);
    SettledHasEffect(entries, l.targets[0], l.recorded[0], r, now, stamp, jitter, hints[0]);
    VictimIsEvictable(first, hints[1 % |hints|]);
    hide Settled, Victim, Rewritten;
    assert first.Keys <= entries.Keys + {l.targets[0]};
    SubsetSize(first.Keys, entries.Keys + {l.targets[0]});
  }
}
