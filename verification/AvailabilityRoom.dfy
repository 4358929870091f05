// Which records can make room for the targets of a completion, told from the
// table as it is before (internal/gateway/availability.go:144-160 and 377-430).
module AvailabilityRoom {
  import opened Basics
  import opened RecoveryBackoff
  import opened Availability
  import opened AvailabilityRuns
  import opened AvailabilityFence

  // A target without a record that had none at dispatch, and is to be given one.
  predicate Adds(entries: Entries, target: Target, recorded: Option<nat>, r: Ending) {
    target !in entries && recorded == None && (Success(r) || Blames(r, target))
  }

  // When the first target's record was last touched after its turn, if it is
  // idle then: a record that is written is touched now.
  ghost function TouchedAfter(entries: Entries, p: Target, recorded: Option<nat>, r: Ending, now: Time): Option<Time> {
    if p in entries then
      var e := entries[p];
      if recorded == Some(e.id) && (Success(r) || Fails(r, p, Some(e))) then Some(now)
      else if e.probing && recorded != Some(e.id) then None
      else Some(e.touched)
    else if Adds(entries, p, recorded, r) then Some(now)
    else None
  }

  // An idle record that no other idle one is older than, `gone` and the first
  // target's aside, which counts as touched.
  ghost predicate Oldest(entries: Entries, gone: Option<Target>, p: Target, touched: Option<Time>, t: Target) {
    && Occupied(entries, t) && gone != Some(t)
    && (forall u :: Occupied(entries, u) && gone != Some(u) && u != p ==> entries[t].touched <= entries[u].touched)
    && (touched.Some? ==> entries[t].touched <= touched.value)
  }

  // The first target takes the oldest idle record of a full table; the second
  // one takes the oldest that is left, if there is no room for it either.
  ghost predicate CanMakeRoom(l: Lease, entries: Entries, r: Ending, now: Time, t: Target)
    requires |l.recorded| == |l.targets| && 1 <= |l.targets| <= 2
  {
    var p := l.targets[0];
    var first := Adds(entries, p, l.recorded[0], r);
    || (first && |entries| >= LIMIT && Evictable(entries, t))
    || (|l.targets| == 2 && l.recorded[1] == None && (Success(r) || Blames(r, l.targets[1]))
        && if first && |entries| >= LIMIT
           then exists v :: Evictable(entries, v) && (l.targets[1] !in entries || l.targets[1] == v)
                            && Oldest(entries, Some(v), p, Some(now), t)
           else l.targets[1] !in entries && |entries| + (if first then 1 else 0) >= LIMIT
                && Oldest(entries, None, p, TouchedAfter(entries, p, l.recorded[0], r, now), t))
  }

  // ----- The first turn -----

  lemma FullTurn(entries: Entries, p: Target, recorded: Option<nat>, r: Ending, now: Time, stamp: nat, jitter: nat -> nat,
                 hint: Target, t: Target)
    requires Adds(entries, p, recorded, r) && |entries| >= LIMIT && t in entries
    ensures var first := Settled(entries, p, recorded, r, now, stamp, jitter, hint);
            var gone := Victim(entries, hint);
            && |first| == |entries|
            && (gone.None? ==> first == entries)
            && (gone.Some? ==> first.Keys == entries.Keys - {gone.value} + {p})
            && (gone.Some? ==> (Evictable(first, t) <==> Oldest(entries, gone, p, Some(now), t)))
  {
    VictimInTable(entries, hint);
    var gone := Victim(entries, hint);
    var e := NextEntry(p, None, r, now, stamp, jitter);
    AddedRecord(p, r, now, stamp, jitter);
    hide Victim, NextEntry;
    var first := Settled(entries, p, recorded, r, now, stamp, jitter, hint);
    if gone.Some? {
      assert first == (entries - {gone.value})[p := e];
      assert first.Keys == entries.Keys - {gone.value} + {p};
      OldestInTurn(entries, gone, p, first, t);
    }
  }

  lemma AddedRecord(p: Target, r: Ending, now: Time, stamp: nat, jitter: nat -> nat)
    ensures var e := NextEntry(p, None, r, now, stamp, jitter); !e.probing && e.touched == now
  {
    hide Delay;
  }

  lemma WrittenIsTouched(p: Target, e: Entry, r: Ending, now: Time, stamp: nat, jitter: nat -> nat)
    ensures var next := NextEntry(p, Some(e), r, now, stamp, jitter); !next.probing && next.touched == now
  {
    hide Delay;
  }

  // Whatever the first turn did, only its own record and the victim's changed.
  lemma OldestInTurn(entries: Entries, gone: Option<Target>, p: Target, first: Entries, t: Target)
    requires t in entries && (gone.Some? ==> gone.value in entries && gone.value != p)
    requires forall u :: u != p ==> (u in first <==> u in entries && gone != Some(u))
    requires forall u :: u in first && u != p ==> first[u] == entries[u]
    requires t == p ==> p in first && first[p] == entries[p]
    ensures Evictable(first, t)
            <==> Oldest(entries, gone, p, if Occupied(first, p) then Some(first[p].touched) else None, t)
  {
    forall u ensures u != p ==> (Occupied(first, u) <==> Occupied(entries, u) && gone != Some(u)) {}
    assert Evictable(first, t)
           <==> Occupied(first, t) && forall u :: Occupied(first, u) ==> first[t].touched <= first[u].touched;
  }

  lemma RoomyKeys(entries: Entries, p: Target, recorded: Option<nat>, r: Ending, now: Time, stamp: nat, jitter: nat -> nat,
                  hint: Target)
    requires !(Adds(entries, p, recorded, r) && |entries| >= LIMIT)
    ensures var first := Settled(entries, p, recorded, r, now, stamp, jitter, hint);
            && |first| == |entries| + (if Adds(entries, p, recorded, r) then 1 else 0)
            && (forall u :: u != p ==> (u in first <==> u in entries))
            && (forall u :: u in first && u != p ==> first[u] == entries[u])
            && (At(entries, p) != recorded ==> first == entries)
  {
    hide NextEntry, Victim;
    var previous := Previous(entries, p);
    if At(entries, p) == recorded {
      if Success(r) || Fails(r, p, previous) {
        UpdatedKeys(entries, p, NextEntry(p, previous, r, now, stamp, jitter));
      } else if previous.Some? {
        UpdatedKeys(entries, p, previous.value.(probing := false, owner := None));
      }
    }
  }

  lemma UpdatedKeys(entries: Entries, p: Target, e: Entry)
    ensures |entries[p := e]| == |entries| + if p in entries then 0 else 1
    ensures forall u :: u != p ==> (u in entries[p := e] <==> u in entries)
    ensures forall u :: u in entries && u != p ==> entries[p := e][u] == entries[u]
  {
    assert entries[p := e].Keys == entries.Keys + {p};
  }

  lemma RoomyTouched(entries: Entries, p: Target, recorded: Option<nat>, r: Ending, now: Time, stamp: nat, jitter: nat -> nat,
                     hint: Target)
    requires !(Adds(entries, p, recorded, r) && |entries| >= LIMIT)
    ensures var first := Settled(entries, p, recorded, r, now, stamp, jitter, hint);
            TouchedAfter(entries, p, recorded, r, now) == if Occupied(first, p) then Some(first[p].touched) else None
  {
    AddedRecord(p, r, now, stamp, jitter);
    if p in entries { WrittenIsTouched(p, entries[p], r, now, stamp, jitter); }
    hide NextEntry, Victim;
  }

  lemma RoomyTurn(entries: Entries, p: Target, recorded: Option<nat>, r: Ending, now: Time, stamp: nat, jitter: nat -> nat,
                  hint: Target, t: Target)
    requires !(Adds(entries, p, recorded, r) && |entries| >= LIMIT) && t in entries
    requires t == p ==> At(entries, p) != recorded
    ensures var first := Settled(entries, p, recorded, r, now, stamp, jitter, hint);
            && |first| == |entries| + (if Adds(entries, p, recorded, r) then 1 else 0)
            && (forall u :: u != p ==> (u in first <==> u in entries))
            && (Evictable(first, t) <==> Oldest(entries, None, p, TouchedAfter(entries, p, recorded, r, now), t))
  {
    hide *;
    RoomyKeys(entries, p, recorded, r, now, stamp, jitter, hint);
    RoomyTouched(entries, p, recorded, r, now, stamp, jitter, hint);
    OldestInTurn(entries, None, p, Settled(entries, p, recorded, r, now, stamp, jitter, hint), t);
  }

  // ----- Both turns -----

  lemma EvictableIsVictim(entries: Entries, hint: Target, t: Target)
    ensures Victim(entries, hint) == Some(t) ==> Evictable(entries, t)
    ensures Evictable(entries, t) ==> Victim(entries, t) == Some(t)
  {
  }

  lemma SecondMakesRoom(p: Target, m: Target, entries: Entries, recorded: seq<Option<nat>>, r: Ending, now: Time, stamp: nat,
                        jitter: nat -> nat, hints: seq<Target>, t: Target)
    requires |recorded| == |hints| == 2 && p != m && t in entries && (t == p ==> At(entries, p) != recorded[0])
    requires MakesRoom(Settled(entries, p, recorded[0], r, now, stamp, jitter, hints[0]), m, recorded[1], r, hints[1], t)
    ensures CanMakeRoom(Lease(0, [p, m], recorded, false, 0), entries, r, now, t)
  {
    hide Settled, Victim, Evictable, Oldest, TouchedAfter;
    var first := Settled(entries, p, recorded[0], r, now, stamp, jitter, hints[0]);
    EvictableIsVictim(first, hints[1], t);
    if Adds(entries, p, recorded[0], r) && |entries| >= LIMIT {
      FullTurn(entries, p, recorded[0], r, now, stamp, jitter, hints[0], t);
      var gone := Victim(entries, hints[0]);
      if gone.Some? {
        EvictableIsVictim(entries, hints[0], gone.value);
        assert m !in entries || m == gone.value;
      } else {
        EvictableIsVictim(entries, t, t);
        NoVictimHere(entries, hints[0], t);
      }
    } else {
      RoomyTurn(entries, p, recorded[0], r, now, stamp, jitter, hints[0], t);
    }
  }

  lemma NoVictimHere(entries: Entries, hint: Target, t: Target)
    ensures Victim(entries, hint).None? ==> !Evictable(entries, t)
  {
  }

  // The hints under which t makes room.
  lemma HintsFor(p: Target, m: Target, entries: Entries, recorded: seq<Option<nat>>, r: Ending, now: Time, stamp: nat,
                 jitter: nat -> nat, t: Target) returns (hints: seq<Target>)
    requires |recorded| == 2 && p != m && t in entries && (t == p ==> At(entries, p) != recorded[0])
    requires CanMakeRoom(Lease(0, [p, m], recorded, false, 0), entries, r, now, t)
    ensures |hints| == 2
    ensures MakesRoom(entries, p, recorded[0], r, hints[0], t)
            || MakesRoom(Settled(entries, p, recorded[0], r, now, stamp, jitter, hints[0]), m, recorded[1], r, hints[1], t)
  {
    hide Settled, Victim, Evictable, Oldest, TouchedAfter;
    hints := [t, t];
    if Adds(entries, p, recorded[0], r) && |entries| >= LIMIT {
      EvictableIsVictim(entries, t, t);
      if !Evictable(entries, t) {
        var v :| Evictable(entries, v) && (m !in entries || m == v) && Oldest(entries, Some(v), p, Some(now), t);
        hints := [v, t];
        EvictableIsVictim(entries, v, v);
        FullTurn(entries, p, recorded[0], r, now, stamp, jitter, v, t);
        EvictableIsVictim(Settled(entries, p, recorded[0], r, now, stamp, jitter, v), t, t);
      }
    } else {
      RoomyTurn(entries, p, recorded[0], r, now, stamp, jitter, t, t);
      EvictableIsVictim(Settled(entries, p, recorded[0], r, now, stamp, jitter, t), t, t);
    }
  }

  ghost predicate Loses(s: System, l: Lease, id: nat, r: Ending, now: Time, jitter: nat -> nat, hints: seq<Target>, t: Target)
    requires |l.recorded| == |l.targets| && t in Pruned(s.table, now).entries
  {
    |hints| == |l.targets|
    && Lost(Pruned(s.table, now).entries, CompletedTable(s.table, l, id, r, now, s.stamp, jitter, hints).entries, t)
  }

  lemma DisplacedCanMakeRoom(l: Lease, entries: Entries, r: Ending, now: Time, stamp: nat, jitter: nat -> nat, hints: seq<Target>, t: Target)
    requires LeaseShape(l) && |hints| == |l.targets| && t in entries
    requires t == l.targets[0] ==> At(entries, t) != l.recorded[0]
    requires Displaces(l, entries, r, now, stamp, jitter, hints, t)
    ensures CanMakeRoom(l, entries, r, now, t)
  {
    hide Settled, Victim, Evictable, Oldest, TouchedAfter;
    EvictableIsVictim(entries, hints[0], t);
    if |l.targets| == 2 && !MakesRoom(entries, l.targets[0], l.recorded[0], r, hints[0], t) {
      SecondMakesRoom(l.targets[0], l.targets[1], entries, l.recorded, r, now, stamp, jitter, hints, t);
    }
  }

  lemma RoomIsMade(l: Lease, entries: Entries, r: Ending, now: Time, stamp: nat, jitter: nat -> nat, t: Target)
    returns (hints: seq<Target>)
    requires LeaseShape(l) && t in entries && CanMakeRoom(l, entries, r, now, t)
    requires t == l.targets[0] ==> At(entries, t) != l.recorded[0]
    ensures |hints| == |l.targets| && Displaces(l, entries, r, now, stamp, jitter, hints, t)
  {
    hide Settled, Victim, Evictable, Oldest, TouchedAfter;
    if |l.targets| == 1 {
      hints := [t];
      EvictableIsVictim(entries, t, t);
    } else {
      hints := HintsFor(l.targets[0], l.targets[1], entries, l.recorded, r, now, stamp, jitter, t);
    }
  }

  lemma NewerIsNotKnown(s: System, l: Lease, t: Target)
    requires LeaseOk(s, l) && t in s.table.entries && Newer(l, s.table.entries[t])
    ensures t == l.targets[0] ==> At(s.table.entries, t) != l.recorded[0]
  {
  }

  // In its own epoch a completion can lose a record made after its last dispatch
  // exactly when that record is, in the table before, the one to make room.
  lemma NewerRecordCanBeLost(states: seq<System>, actions: seq<Action>, i: nat, id: nat, r: Ending, now: Time,
                             jitter: nat -> nat, t: Target)
    requires Run(states, actions) && i < |states| && id in states[i].leases && !states[i].leases[id].finished
    requires states[i].leases[id].epoch == states[i].table.epoch
    requires t in Pruned(states[i].table, now).entries && Newer(states[i].leases[id], Pruned(states[i].table, now).entries[t])
    ensures LeaseShape(states[i].leases[id])
    ensures (exists hints :: Loses(states[i], states[i].leases[id], id, r, now, jitter, hints, t))
            <==> CanMakeRoom(states[i].leases[id], Pruned(states[i].table, now).entries, r, now, t)
  {
    RunKeepsInv(states, actions, i);
    var s := states[i];
    PruneKeepsInv(s, now);
    var p := s.(table := Pruned(s.table, now));
    PrunedSubset(s.table, now);
    var l := s.leases[id];
    assert LeaseOk(s, l) && LeaseOk(p, l);
    NewerIsNotKnown(p, l, t);
    hide Inv, LeaseOk, EntryOk, ClaimOk, Displaces, CanMakeRoom, Lost, CompletedTable, Pruned;
    forall hints | |hints| == |l.targets|
      ensures Loses(s, l, id, r, now, jitter, hints, t) <==> Displaces(l, p.table.entries, r, now, s.stamp, jitter, hints, t)
    {
      NewerRecordIsLostOnlyToMakeRoom(states, actions, i, id, r, now, jitter, hints, t);
    }
    if hints :| Loses(s, l, id, r, now, jitter, hints, t) {
      DisplacedCanMakeRoom(l, p.table.entries, r, now, s.stamp, jitter, hints, t);
    }
    if CanMakeRoom(l, p.table.entries, r, now, t) {
      var hints := RoomIsMade(l, p.table.entries, r, now, s.stamp, jitter, t);
      assert Loses(s, l, id, r, now, jitter, hints, t);
    }
  }
}
