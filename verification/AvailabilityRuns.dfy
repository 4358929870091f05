// Every interleaving of the availability steps of internal/gateway/
// availability.go by requests and reloads. A request begins a lease once, may
// dispatch it again, completes it once and then leaves it alone
// (route_recovery.go:99-145).
module AvailabilityRuns {
  import opened Basics
  import opened RecoveryBackoff
  import opened Availability

  datatype System = System(table: Table, leases: map<nat, Lease>, stamp: nat)

  datatype Action =
    | Reload(epoch: nat, generations: map<string, nat>, valid: Target -> bool)
    | Begin(id: nat, epoch: nat, provider: string, model: string, generation: nat, now: Time)
    | Redispatch(id: nat, now: Time)
    | Complete(id: nat, result: Ending, now: Time, jitter: nat -> nat, hints: seq<Target>)
    | Look(epoch: nat, now: Time)

  function Initial(): System {
    System(Table(0, map[], map[], 0), map[], 0)
  }

  // A lease of the current epoch is begun with that view's generation.
  ghost predicate Enabled(s: System, a: Action) {
    match a
    case Reload(epoch, _, _) => epoch > s.table.epoch || s.leases == map[]
    case Begin(id, epoch, provider, _, generation, _) =>
      && id !in s.leases && epoch <= s.table.epoch
      && (epoch == s.table.epoch ==> provider in s.table.generations && s.table.generations[provider] == generation)
    case Redispatch(id, _) => id in s.leases && !s.leases[id].finished && LeaseShape(s.leases[id])
    case Complete(id, r, _, _, hints) =>
      && id in s.leases && !s.leases[id].finished && LeaseShape(s.leases[id])
      && Classified(r) && |hints| == |s.leases[id].targets|
    case Look(_, _) => true
  }

  ghost function Apply(s: System, a: Action): System
    requires Enabled(s, a)
  {
    match a
    case Reload(epoch, generations, valid) =>
      System(Activated(s.table, epoch, generations, valid, s.stamp), s.leases, s.stamp + 1)
    case Begin(id, epoch, provider, model, generation, now) =>
      var l := NewLease(epoch, TargetsOf(provider, model, generation));
      var d := Dispatched(s.table, l, id, now, s.stamp);
      System(d.table, s.leases[id := d.lease.(finished := d.blockedBy.Some?)], s.stamp + 1)
    case Redispatch(id, now) =>
      var d := Dispatched(s.table, s.leases[id], id, now, s.stamp);
      System(d.table, s.leases[id := d.lease], s.stamp + 1)
    case Complete(id, r, now, jitter, hints) =>
      var l := s.leases[id];
      System(CompletedTable(s.table, l, id, r, now, s.stamp, jitter, hints), s.leases[id := l.(finished := true)], s.stamp + 1)
    case Look(epoch, now) =>
      if epoch == s.table.epoch then s.(table := Pruned(s.table, now)) else s
  }

  ghost predicate Run(states: seq<System>, actions: seq<Action>) {
    && |states| == |actions| + 1 && states[0] == Initial()
    && forall i :: 0 <= i < |actions| ==> Enabled(states[i], actions[i]) && states[i + 1] == Apply(states[i], actions[i])
  }

  // ----- Invariant -----

  ghost predicate EntryOk(s: System, t: Target, e: Entry) {
    && e.id < s.stamp && (e.probing <==> e.owner.Some?) && Current(s.table, t)
    && (e.probing ==> e.failures > 0 && e.owner.value in s.leases
                      && !s.leases[e.owner.value].finished && Covers(s.leases[e.owner.value], t))
  }

  ghost predicate LeaseOk(s: System, l: Lease) {
    && LeaseShape(l) && l.epoch <= s.table.epoch && l.seen <= s.stamp
    && (forall i :: 0 <= i < |l.recorded| && l.recorded[i].Some? ==> l.recorded[i].value < l.seen)
    && (l.epoch == s.table.epoch && !l.finished ==> forall i :: 0 <= i < |l.targets| ==> Current(s.table, l.targets[i]))
  }

  // In its own epoch a lease knows the records it claims, and claims every
  // failed record it knows.
  ghost predicate ClaimOk(s: System, id: nat, l: Lease) {
    !l.finished && l.epoch == s.table.epoch ==>
      |l.recorded| == |l.targets|
      && forall i :: 0 <= i < |l.targets| && l.targets[i] in s.table.entries ==>
           var e := s.table.entries[l.targets[i]];
           (e.owner == Some(id) ==> Knows(l, i, s.table.entries))
           && (Knows(l, i, s.table.entries) && e.failures > 0 ==> e.owner == Some(id))
  }

  ghost predicate Inv(s: System) {
    && |s.table.entries| <= LIMIT
    && (forall t :: t in s.table.entries ==> EntryOk(s, t, s.table.entries[t]))
    && (forall id :: id in s.leases ==> LeaseOk(s, s.leases[id]) && ClaimOk(s, id, s.leases[id]))
  }

  // ----- Pruning -----

  lemma PrunedSubset(s: Table, now: Time)
    ensures var p := Pruned(s, now);
            && p.epoch == s.epoch && p.generations == s.generations && |p.entries| <= |s.entries|
            && (forall t :: t in p.entries ==> t in s.entries && p.entries[t] == s.entries[t])
            && (forall t :: t in s.entries && t !in p.entries ==> Stale(s.entries[t], now))
  {
    var p := Pruned(s, now);
    assert p.entries.Keys <= s.entries.Keys;
    SubsetSize(p.entries.Keys, s.entries.Keys);
  }

  lemma SubsetSize<T>(a: set<T>, b: set<T>)
    requires a <= b
    ensures |a| <= |b|
  {
    assert b == a + (b - a);
  }

  lemma PruneKeepsInv(s: System, now: Time)
    requires Inv(s)
    ensures Inv(s.(table := Pruned(s.table, now)))
  {
    PrunedSubset(s.table, now);
    hide Pruned;
    var t := s.(table := Pruned(s.table, now));
    forall k | k in t.table.entries ensures EntryOk(t, k, t.table.entries[k]) {
      assert EntryOk(s, k, s.table.entries[k]);
    }
    forall id | id in t.leases ensures LeaseOk(t, t.leases[id]) && ClaimOk(t, id, t.leases[id]) {
      assert LeaseOk(s, s.leases[id]) && ClaimOk(s, id, s.leases[id]);
    }
    hide EntryOk, LeaseOk, ClaimOk;
  }

  // ----- Dispatch -----

  lemma {:induction false} FirstBlockIsFirst(l: Lease, i: nat, entries: Entries, now: Time)
    requires |l.recorded| == |l.targets|
    ensures var b := FirstBlock(l, i, entries, now);
            if b.Some? then i <= b.value < |l.targets| && Blocks(l, b.value, entries, now)
            else forall j :: i <= j < |l.targets| ==> !Blocks(l, j, entries, now)
    decreases |l.targets| - i
  {
    if i < |l.targets| && !Blocks(l, i, entries, now) {
      FirstBlockIsFirst(l, i + 1, entries, now);
    }
  }

  function Admitted(s: System, id: nat, l: Lease): System {
    System(s.table.(entries := Claimed(l, id, s.table.entries)),
           s.leases[id := l.(recorded := Recorded(l.targets, s.table.entries), seen := s.stamp)], s.stamp + 1)
  }

  lemma AdmittedEntry(s: System, id: nat, l: Lease, t: Target)
    requires id in s.leases && s.leases[id] == l && !l.finished && t in s.table.entries
    requires EntryOk(s, t, s.table.entries[t])
    ensures EntryOk(Admitted(s, id, l), t, Admitted(s, id, l).table.entries[t])
  {
    assert forall u :: Covers(l.(recorded := Recorded(l.targets, s.table.entries), seen := s.stamp), u) == Covers(l, u);
  }

  lemma AdmittedOther(s: System, id: nat, l: Lease, other: nat)
    requires Inv(s) && id in s.leases && s.leases[id] == l && other in s.leases && other != id
    ensures LeaseOk(Admitted(s, id, l), s.leases[other]) && ClaimOk(Admitted(s, id, l), other, s.leases[other])
  {
    var m := s.leases[other];
    assert LeaseOk(s, m) && ClaimOk(s, other, m);
    forall i | 0 <= i < |m.targets| && m.targets[i] in s.table.entries ensures EntryOk(s, m.targets[i], s.table.entries[m.targets[i]]) {}
    hide EntryOk, Inv;
    assert forall t :: At(Claimed(l, id, s.table.entries), t) == At(s.table.entries, t);
    if !m.finished && m.epoch == s.table.epoch {
      forall i | 0 <= i < |m.targets| && m.targets[i] in s.table.entries
        ensures var e := Claimed(l, id, s.table.entries)[m.targets[i]];
                (e.owner == Some(other) ==> Knows(m, i, s.table.entries))
                && (Knows(m, i, s.table.entries) && e.failures > 0 ==> e.owner == Some(other))
      {
        ProbingIsOwned(s, m.targets[i]);
      }
    }
  }

  lemma ProbingIsOwned(s: System, t: Target)
    ensures t in s.table.entries && EntryOk(s, t, s.table.entries[t]) ==>
              (s.table.entries[t].probing <==> s.table.entries[t].owner.Some?)
  {
  }

  lemma AdmittedSelf(s: System, id: nat, l: Lease, now: Time)
    requires Inv(s) && id in s.leases && s.leases[id] == l && !l.finished && l.epoch == s.table.epoch
    requires FirstBlock(l, 0, s.table.entries, now).None?
    ensures var a := Admitted(s, id, l); LeaseOk(a, a.leases[id]) && ClaimOk(a, id, a.leases[id])
  {
    assert LeaseOk(s, l) && ClaimOk(s, id, l);
    forall i | 0 <= i < |l.targets| && l.targets[i] in s.table.entries ensures EntryOk(s, l.targets[i], s.table.entries[l.targets[i]]) {}
    hide Inv;
    FirstBlockIsFirst(l, 0, s.table.entries, now);
    var a := Admitted(s, id, l);
    var m := a.leases[id];
    forall i | 0 <= i < |m.targets| && m.targets[i] in a.table.entries
      ensures var e := a.table.entries[m.targets[i]];
              Knows(m, i, a.table.entries) && (e.failures > 0 ==> e.owner == Some(id))
    {
      assert Covers(l, m.targets[i]) && !Blocks(l, i, s.table.entries, now);
    }
  }

  lemma AdmitKeepsInv(s: System, id: nat, l: Lease, now: Time)
    requires Inv(s) && id in s.leases && s.leases[id] == l && !l.finished && l.epoch == s.table.epoch
    requires FirstBlock(l, 0, s.table.entries, now).None?
    ensures Inv(Admitted(s, id, l))
  {
    hide EntryOk, LeaseOk, ClaimOk, FirstBlock;
    var a := Admitted(s, id, l);
    assert a.table.entries.Keys == s.table.entries.Keys;
    forall t | t in a.table.entries ensures EntryOk(a, t, a.table.entries[t]) {
      AdmittedEntry(s, id, l, t);
    }
    forall other | other in a.leases ensures LeaseOk(a, a.leases[other]) && ClaimOk(a, other, a.leases[other]) {
      if other == id { AdmittedSelf(s, id, l, now); } else { AdmittedOther(s, id, l, other); }
    }
  }

  lemma TickKeepsInv(s: System)
    requires Inv(s)
    ensures Inv(s.(stamp := s.stamp + 1))
  {
    var t := s.(stamp := s.stamp + 1);
    forall k | k in t.table.entries ensures EntryOk(t, k, t.table.entries[k]) { assert EntryOk(s, k, s.table.entries[k]); }
    forall id | id in t.leases ensures LeaseOk(t, t.leases[id]) && ClaimOk(t, id, t.leases[id]) {
      assert LeaseOk(s, s.leases[id]) && ClaimOk(s, id, s.leases[id]);
    }
    hide EntryOk, LeaseOk, ClaimOk;
  }

  lemma DispatchKeepsInv(s: System, id: nat, now: Time)
    requires Inv(s) && id in s.leases && !s.leases[id].finished && LeaseShape(s.leases[id])
    ensures var d := Dispatched(s.table, s.leases[id], id, now, s.stamp);
            Inv(System(d.table, s.leases[id := d.lease], s.stamp + 1))
  {
    hide Inv, Pruned, Claimed, FirstBlock;
    var l := s.leases[id];
    var d := Dispatched(s.table, l, id, now, s.stamp);
    if l.epoch != s.table.epoch {
      assert s.leases[id := l] == s.leases;
      TickKeepsInv(s);
    } else {
      var p := s.(table := Pruned(s.table, now));
      PruneKeepsInv(s, now);
      PrunedSubset(s.table, now);
      if d.blockedBy.Some? {
        assert s.leases[id := l] == s.leases;
        TickKeepsInv(p);
      } else {
        AdmitKeepsInv(p, id, l, now);
      }
    }
  }

  lemma TargetsAreDistinct(provider: string, model: string, generation: nat, epoch: nat)
    ensures LeaseShape(NewLease(epoch, TargetsOf(provider, model, generation)))
    ensures forall i :: 0 <= i < |TargetsOf(provider, model, generation)| ==>
              TargetsOf(provider, model, generation)[i].provider == provider
              && TargetsOf(provider, model, generation)[i].generation == generation
  {
  }

  lemma AddLeaseKeepsInv(s: System, id: nat, l: Lease)
    requires Inv(s) && id !in s.leases && LeaseOk(s, l) && !l.finished && forall i :: 0 <= i < |l.recorded| ==> l.recorded[i].None?
    ensures Inv(s.(leases := s.leases[id := l]))
  {
    var t := s.(leases := s.leases[id := l]);
    forall k | k in t.table.entries ensures EntryOk(t, k, t.table.entries[k]) { assert EntryOk(s, k, s.table.entries[k]); }
    forall other | other in t.leases ensures LeaseOk(t, t.leases[other]) && ClaimOk(t, other, t.leases[other]) {
      if other != id {
        assert LeaseOk(s, s.leases[other]) && ClaimOk(s, other, s.leases[other]);
      } else {
        forall i | 0 <= i < |l.targets| && l.targets[i] in s.table.entries
          ensures s.table.entries[l.targets[i]].owner != Some(id) && !Knows(l, i, s.table.entries)
        {
          assert EntryOk(s, l.targets[i], s.table.entries[l.targets[i]]);
        }
      }
    }
    hide EntryOk, LeaseOk, ClaimOk;
  }

  ghost predicate Unowned(entries: Entries, id: nat) {
    forall t :: t in entries ==> entries[t].owner != Some(id)
  }

  lemma FinishKeepsInv(s: System, id: nat)
    requires Inv(s) && id in s.leases && Unowned(s.table.entries, id)
    ensures Inv(s.(leases := s.leases[id := s.leases[id].(finished := true)]))
  {
    var l := s.leases[id];
    var t := s.(leases := s.leases[id := l.(finished := true)]);
    forall k | k in t.table.entries ensures EntryOk(t, k, t.table.entries[k]) {
      assert EntryOk(s, k, s.table.entries[k]);
      assert s.table.entries[k].owner != Some(id);
    }
    forall other | other in t.leases ensures LeaseOk(t, t.leases[other]) && ClaimOk(t, other, t.leases[other]) {
      assert LeaseOk(s, s.leases[other]) && ClaimOk(s, other, s.leases[other]);
    }
    hide EntryOk, LeaseOk, ClaimOk;
  }

  lemma NobodyOwns(s: System, id: nat)
    requires Inv(s) && id !in s.leases
    ensures Unowned(s.table.entries, id)
  {
    forall t | t in s.table.entries ensures s.table.entries[t].owner != Some(id) {
      assert EntryOk(s, t, s.table.entries[t]);
    }
  }

  lemma BeginKeepsInv(s: System, a: Action)
    requires Inv(s) && a.Begin? && Enabled(s, a)
    ensures Inv(Apply(s, a))
  {
    hide EntryOk, ClaimOk, FirstBlock, Claimed, Pruned;
    var l := NewLease(a.epoch, TargetsOf(a.provider, a.model, a.generation));
    TargetsAreDistinct(a.provider, a.model, a.generation, a.epoch);
    NobodyOwns(s, a.id);
    assert LeaseOk(s, l);
    hide LeaseOk, TargetsOf;
    AddLeaseKeepsInv(s, a.id, l);
    var added := s.(leases := s.leases[a.id := l]);
    hide Inv;
    DispatchKeepsInv(added, a.id, a.now);
    var d := Dispatched(s.table, l, a.id, a.now, s.stamp);
    var t := System(d.table, added.leases[a.id := d.lease], s.stamp + 1);
    assert added.leases[a.id := d.lease] == s.leases[a.id := d.lease];
    if d.blockedBy.Some? {
      PrunedSubset(s.table, a.now);
      assert Unowned(d.table.entries, a.id);
      FinishKeepsInv(t, a.id);
      assert t.leases[a.id := d.lease.(finished := true)] == s.leases[a.id := d.lease.(finished := true)];
    } else {
      NotFinished(s.table, l, a.id, a.now, s.stamp);
      assert d.lease.(finished := false) == d.lease;
    }
  }

  lemma NotFinished(s: Table, l: Lease, id: nat, now: Time, stamp: nat)
    requires |l.recorded| == |l.targets| && !l.finished
    ensures !Dispatched(s, l, id, now, stamp).lease.finished
  {
  }

  // ----- Completion -----

  // What settling one target does to the table.
  ghost predicate SettleEffect(entries: Entries, after: Entries, t: Target, recorded: Option<nat>, stamp: nat) {
    && (|entries| <= LIMIT ==> |after| <= LIMIT)
    && (forall u :: u in after && u != t ==> u in entries && after[u] == entries[u])
    && (forall u :: u in entries && u !in after ==>
          u != t && t !in entries && |entries| >= LIMIT && Evictable(entries, u))
    && (t in after ==>
          if At(entries, t) != recorded then t in entries && after[t] == entries[t]
          else Rewritten(entries, t, after[t], stamp))
  }

  // A settled record is free: it is new, or the old one without its claim.
  predicate Rewritten(entries: Entries, t: Target, e: Entry, stamp: nat) {
    (!e.probing && e.owner == None && e.id == stamp)
    || (t in entries && e == entries[t] && !e.probing)
    || (t in entries && entries[t].probing && e == entries[t].(probing := false, owner := None))
  }

  lemma VictimIsEvictable(entries: Entries, hint: Target)
    ensures var v := Victim(entries, hint); v.Some? ==> Evictable(entries, v.value)
  {
  }

  // Every record but the target's stays, except for one evicted to make room.
  ghost predicate PutSpec(entries: Entries, after: Entries, t: Target) {
    && (|entries| <= LIMIT ==> |after| <= LIMIT)
    && (forall u :: u in after && u != t ==> u in entries && after[u] == entries[u])
    && (forall u :: u in entries && u !in after ==> u != t && t !in entries && |entries| >= LIMIT && Evictable(entries, u))
    && (t in entries ==> t in after)
  }

  lemma PutInPlace(entries: Entries, t: Target, e: Entry)
    requires t in entries || |entries| < LIMIT
    ensures PutSpec(entries, entries[t := e], t)
  {
    hide Evictable;
    assert entries[t := e].Keys == entries.Keys + {t};
    if t in entries { assert entries[t := e].Keys == entries.Keys; }
  }

  lemma PutEvicting(entries: Entries, t: Target, e: Entry, v: Target)
    requires t !in entries && |entries| >= LIMIT && v in entries && Evictable(entries, v)
    ensures PutSpec(entries, (entries - {v})[t := e], t)
  {
    hide Evictable;
    var rest := entries - {v};
    assert rest.Keys == entries.Keys - {v};
    assert rest[t := e].Keys == rest.Keys + {t};
    assert |rest.Keys| == |entries.Keys| - 1;
  }

  lemma PutEffect(entries: Entries, t: Target, e: Entry, hint: Target)
    ensures PutSpec(entries, Put(entries, t, e, hint), t)
    ensures t in Put(entries, t, e, hint) ==> Put(entries, t, e, hint)[t] == e
  {
    hide Evictable, Victim, PutSpec;
    VictimIsEvictable(entries, hint);
    if t in entries || |entries| < LIMIT {
      PutInPlace(entries, t, e);
    } else {
      var v := Victim(entries, hint);
      if v.Some? {
        EvictableIsPresent(entries, v.value);
        PutEvicting(entries, t, e, v.value);
      } else {
        NothingPut(entries, t);
      }
    }
  }

  lemma NothingPut(entries: Entries, t: Target)
    ensures PutSpec(entries, entries, t)
  {
  }

  lemma EvictableIsPresent(entries: Entries, v: Target)
    ensures Evictable(entries, v) ==> v in entries && !entries[v].probing
  {
  }

  lemma PutSettles(entries: Entries, t: Target, recorded: Option<nat>, e: Entry, hint: Target, stamp: nat)
    requires At(entries, t) == recorded && e.id == stamp && !e.probing && e.owner == None
    ensures SettleEffect(entries, Put(entries, t, e, hint), t, recorded, stamp)
  {
    hide Put, Evictable;
    PutEffect(entries, t, e, hint);
  }

  lemma SettledHasEffect(entries: Entries, t: Target, recorded: Option<nat>, r: Ending, now: Time, stamp: nat,
                         jitter: nat -> nat, hint: Target)
    ensures SettleEffect(entries, Settled(entries, t, recorded, r, now, stamp, jitter, hint), t, recorded, stamp)
  {
    hide Put, Delay, Evictable;
    var previous := Previous(entries, t);
    var next := NextEntry(t, previous, r, now, stamp, jitter);
    assert next.id == stamp && !next.probing && next.owner == None;
    hide NextEntry;
    if At(entries, t) == recorded {
      if Success(r) || Fails(r, t, previous) {
        hide SettleEffect;
        PutSettles(entries, t, recorded, next, hint, stamp);
      } else if previous.Some? && previous.value.probing {
        assert entries[t := previous.value.(probing := false, owner := None)].Keys == entries.Keys;
      }
    }
  }

  // After the first n targets: a record is untouched, or it stood at one of
  // them under the identity the lease knew and is free now.
  ghost predicate Progress(l: Lease, n: nat, entries: Entries, after: Entries, stamp: nat)
    requires |l.recorded| == |l.targets|
  {
    && (|entries| <= LIMIT ==> |after| <= LIMIT)
    && (forall u :: u in entries && u !in after ==> !entries[u].probing || exists i :: KnownAt(l, n, i, entries, u))
    && (forall u :: u in after ==> Untouched(entries, u, after[u]) || exists i :: SettledAt(l, n, i, entries, u, after[u], stamp))
    && (forall i :: 0 <= i < |l.targets| && i < n && l.targets[i] in after && Knows(l, i, entries) ==>
          !after[l.targets[i]].probing)
  }

  predicate KnownAt(l: Lease, n: nat, i: int, entries: Entries, u: Target)
    requires |l.recorded| == |l.targets|
  {
    0 <= i < n && i < |l.targets| && l.targets[i] == u && Knows(l, i, entries)
  }

  predicate Untouched(entries: Entries, u: Target, e: Entry) {
    u in entries && e == entries[u]
  }

  predicate SettledAt(l: Lease, n: nat, i: int, entries: Entries, u: Target, e: Entry, stamp: nat)
    requires |l.recorded| == |l.targets|
  {
    && 0 <= i < n && i < |l.targets| && l.targets[i] == u
    && (u in entries ==> Knows(l, i, entries) || (e.id == stamp && !entries[u].probing))
    && ((e.id == stamp && !e.probing && e.owner == None) || (u in entries && Rewritten(entries, u, e, stamp)))
  }

  lemma {:induction false} SettledToProgress(l: Lease, n: nat, entries: Entries, r: Ending, now: Time, stamp: nat, jitter: nat -> nat, hints: seq<Target>)
    requires LeaseShape(l) && |hints| == |l.targets| && n <= |l.targets|
    ensures Progress(l, n, entries, SettledTo(l, n, entries, r, now, stamp, jitter, hints), stamp)
  {
    if n > 0 {
      var before := SettledTo(l, n - 1, entries, r, now, stamp, jitter, hints);
      var after := SettledTo(l, n, entries, r, now, stamp, jitter, hints);
      SettledToProgress(l, n - 1, entries, r, now, stamp, jitter, hints);
      SettledHasEffect(before, l.targets[n - 1], l.recorded[n - 1], r, now, stamp, jitter, hints[n - 1]);
      hide SettledTo, Settled;
      ProgressStep(l, n, entries, before, after, stamp);
    }
  }

  lemma ProgressStep(l: Lease, n: nat, entries: Entries, before: Entries, after: Entries, stamp: nat)
    requires LeaseShape(l) && 0 < n <= |l.targets| && Progress(l, n - 1, entries, before, stamp)
    requires SettleEffect(before, after, l.targets[n - 1], l.recorded[n - 1], stamp)
    ensures Progress(l, n, entries, after, stamp)
  {
    hide Evictable;
    var t := l.targets[n - 1];
    forall u | u in entries && u !in after ensures !entries[u].probing || exists i :: KnownAt(l, n, i, entries, u) {
      ProgressDrops(l, n, entries, before, after, stamp, u);
    }
    forall u | u in after
      ensures Untouched(entries, u, after[u]) || exists i :: SettledAt(l, n, i, entries, u, after[u], stamp)
    {
      ProgressRecord(l, n, entries, before, after, stamp, u);
    }
    forall i | 0 <= i < n && l.targets[i] in after && Knows(l, i, entries) ensures !after[l.targets[i]].probing {
      ProgressFrees(l, n, entries, before, after, stamp, i);
    }
  }

  lemma ProgressDrops(l: Lease, n: nat, entries: Entries, before: Entries, after: Entries, stamp: nat, u: Target)
    requires LeaseShape(l) && 0 < n <= |l.targets| && Progress(l, n - 1, entries, before, stamp)
    requires SettleEffect(before, after, l.targets[n - 1], l.recorded[n - 1], stamp)
    requires u in entries && u !in after
    ensures !entries[u].probing || exists i :: KnownAt(l, n, i, entries, u)
  {
    hide Rewritten;
    if u in before {
      EvictableIsPresent(before, u);
      hide Evictable;
      if !Untouched(entries, u, before[u]) {
        var i :| SettledAt(l, n - 1, i, entries, u, before[u], stamp);
        assert Knows(l, i, entries) ==> KnownAt(l, n, i, entries, u);
      }
    } else if entries[u].probing {
      var i :| KnownAt(l, n - 1, i, entries, u);
      assert KnownAt(l, n, i, entries, u);
    }
  }

  lemma ProgressRecord(l: Lease, n: nat, entries: Entries, before: Entries, after: Entries, stamp: nat, u: Target)
    requires LeaseShape(l) && 0 < n <= |l.targets| && Progress(l, n - 1, entries, before, stamp)
    requires SettleEffect(before, after, l.targets[n - 1], l.recorded[n - 1], stamp) && u in after
    ensures Untouched(entries, u, after[u]) || exists i :: SettledAt(l, n, i, entries, u, after[u], stamp)
  {
    hide Evictable;
    if u in before && after[u] == before[u] {
      if !Untouched(entries, u, before[u]) {
        var i :| SettledAt(l, n - 1, i, entries, u, before[u], stamp);
        assert SettledAt(l, n, i, entries, u, after[u], stamp);
      }
    } else {
      assert SettledAt(l, n, n - 1, entries, u, after[u], stamp);
    }
  }

  lemma ProgressFrees(l: Lease, n: nat, entries: Entries, before: Entries, after: Entries, stamp: nat, i: nat)
    requires LeaseShape(l) && 0 < n <= |l.targets| && Progress(l, n - 1, entries, before, stamp)
    requires SettleEffect(before, after, l.targets[n - 1], l.recorded[n - 1], stamp)
    requires i < n && l.targets[i] in after && Knows(l, i, entries)
    ensures !after[l.targets[i]].probing
  {
    hide Evictable;
    var u := l.targets[i];
    if i == n - 1 && u in before {
      var e, m := before[u], n - 1;
      assert forall j :: !SettledAt(l, m, j, entries, u, e, stamp);
    }
  }

  function Finished(s: System, id: nat, after: Entries): System
    requires id in s.leases
  {
    System(s.table.(entries := after), s.leases[id := s.leases[id].(finished := true)], s.stamp + 1)
  }

  // The completing lease knew every record it owns, so none of them keeps it.
  lemma NoClaimIsKept(s: System, id: nat, after: Entries, u: Target)
    requires Inv(s) && id in s.leases && !s.leases[id].finished && s.leases[id].epoch == s.table.epoch && LeaseShape(s.leases[id])
    requires Progress(s.leases[id], |s.leases[id].targets|, s.table.entries, after, s.stamp)
    requires u in after && u in s.table.entries && s.table.entries[u].owner == Some(id)
    ensures !after[u].probing
  {
    var l := s.leases[id];
    assert EntryOk(s, u, s.table.entries[u]) && ClaimOk(s, id, l);
    var i :| 0 <= i < |l.targets| && l.targets[i] == u;
    assert Knows(l, i, s.table.entries);
  }

  lemma FinishedEntry(s: System, id: nat, after: Entries, u: Target)
    requires Inv(s) && id in s.leases && !s.leases[id].finished && s.leases[id].epoch == s.table.epoch && LeaseShape(s.leases[id])
    requires Progress(s.leases[id], |s.leases[id].targets|, s.table.entries, after, s.stamp) && u in after
    ensures EntryOk(Finished(s, id, after), u, after[u])
  {
    var l := s.leases[id];
    assert LeaseOk(s, l);
    assert u in s.table.entries ==> EntryOk(s, u, s.table.entries[u]);
    if Untouched(s.table.entries, u, after[u]) {
      if after[u].owner == Some(id) { NoClaimIsKept(s, id, after, u); }
    } else {
      hide ClaimOk, Inv;
      var n := |l.targets|;
      var i :| SettledAt(l, n, i, s.table.entries, u, after[u], s.stamp);
    }
  }

  lemma FinishedOther(s: System, id: nat, after: Entries, other: nat)
    requires Inv(s) && id in s.leases && !s.leases[id].finished && s.leases[id].epoch == s.table.epoch && LeaseShape(s.leases[id])
    requires Progress(s.leases[id], |s.leases[id].targets|, s.table.entries, after, s.stamp)
    requires other in s.leases && other != id
    ensures LeaseOk(Finished(s, id, after), s.leases[other]) && ClaimOk(Finished(s, id, after), other, s.leases[other])
  {
    var m := s.leases[other];
    assert LeaseOk(s, m);
    if !m.finished && m.epoch == s.table.epoch {
      forall i | 0 <= i < |m.targets| && m.targets[i] in after
        ensures var e := after[m.targets[i]];
                (e.owner == Some(other) ==> Knows(m, i, after))
                && (Knows(m, i, after) && e.failures > 0 ==> e.owner == Some(other))
      {
        FinishedClaim(s, id, after, other, i);
      }
    }
  }

  lemma FinishedClaim(s: System, id: nat, after: Entries, other: nat, i: nat)
    requires Inv(s) && id in s.leases && !s.leases[id].finished && s.leases[id].epoch == s.table.epoch && LeaseShape(s.leases[id])
    requires Progress(s.leases[id], |s.leases[id].targets|, s.table.entries, after, s.stamp)
    requires other in s.leases && other != id && !s.leases[other].finished && s.leases[other].epoch == s.table.epoch
    requires |s.leases[other].recorded| == |s.leases[other].targets|
    requires i < |s.leases[other].targets| && s.leases[other].targets[i] in after
    ensures var m := s.leases[other];
            var e := after[m.targets[i]];
            (e.owner == Some(other) ==> Knows(m, i, after))
            && (Knows(m, i, after) && e.failures > 0 ==> e.owner == Some(other))
  {
    var l, m := s.leases[id], s.leases[other];
    var u := m.targets[i];
    assert LeaseOk(s, m) && ClaimOk(s, other, m) && ClaimOk(s, id, l);
    assert u in s.table.entries ==> EntryOk(s, u, s.table.entries[u]);
    hide Inv;
    if !Untouched(s.table.entries, u, after[u]) {
      var n := |l.targets|;
      var j :| SettledAt(l, n, j, s.table.entries, u, after[u], s.stamp);
      hide Progress;
      SettledClaim(s, id, other, after[u], i, j);
    }
  }

  // A settled record belongs to nobody, and another lease that knew it before
  // knows it no more or never claimed it.
  lemma SettledClaim(s: System, id: nat, other: nat, e: Entry, i: nat, j: int)
    requires id in s.leases && other in s.leases && other != id
    requires |s.leases[id].recorded| == |s.leases[id].targets| && |s.leases[other].recorded| == |s.leases[other].targets|
    requires i < |s.leases[other].targets|
    requires var u := s.leases[other].targets[i];
             SettledAt(s.leases[id], |s.leases[id].targets|, j, s.table.entries, u, e, s.stamp)
             && (u in s.table.entries ==> EntryOk(s, u, s.table.entries[u]))
    requires LeaseOk(s, s.leases[other]) && ClaimOk(s, other, s.leases[other]) && ClaimOk(s, id, s.leases[id])
    requires !s.leases[id].finished && s.leases[id].epoch == s.table.epoch
    requires !s.leases[other].finished && s.leases[other].epoch == s.table.epoch
    ensures e.owner != Some(other) || s.leases[other].recorded[i] == Some(e.id)
    ensures s.leases[other].recorded[i] == Some(e.id) && e.failures > 0 ==> e.owner == Some(other)
  {
  }

  lemma FinishKeepsInvWith(s: System, id: nat, after: Entries)
    requires Inv(s) && id in s.leases && !s.leases[id].finished && s.leases[id].epoch == s.table.epoch && LeaseShape(s.leases[id])
    requires Progress(s.leases[id], |s.leases[id].targets|, s.table.entries, after, s.stamp)
    ensures Inv(Finished(s, id, after))
  {
    hide EntryOk, LeaseOk, ClaimOk;
    var t := Finished(s, id, after);
    forall u | u in after ensures EntryOk(t, u, after[u]) { FinishedEntry(s, id, after, u); }
    forall other | other in t.leases ensures LeaseOk(t, t.leases[other]) && ClaimOk(t, other, t.leases[other]) {
      if other != id { FinishedOther(s, id, after, other); } else { FinishedSelf(s, id, after); }
    }
  }

  lemma FinishedSelf(s: System, id: nat, after: Entries)
    requires id in s.leases && LeaseOk(s, s.leases[id])
    ensures var t := Finished(s, id, after); LeaseOk(t, t.leases[id]) && ClaimOk(t, id, t.leases[id])
  {
  }

  lemma ReleasedEntry(s: System, id: nat, u: Target)
    requires id in s.leases && u in s.table.entries && EntryOk(s, u, s.table.entries[u])
    ensures var after := Released(s.table.entries, s.leases[id], id, s.stamp);
            EntryOk(Finished(s, id, after), u, after[u])
  {
  }

  lemma ReleasedLease(s: System, id: nat, other: nat)
    requires id in s.leases && s.leases[id].epoch != s.table.epoch && other in s.leases
    requires LeaseOk(s, s.leases[other]) && ClaimOk(s, other, s.leases[other])
    ensures var t := Finished(s, id, Released(s.table.entries, s.leases[id], id, s.stamp));
            LeaseOk(t, t.leases[other]) && ClaimOk(t, other, t.leases[other])
  {
    hide Covers;
  }

  lemma ReleaseKeepsInv(s: System, id: nat)
    requires Inv(s) && id in s.leases && s.leases[id].epoch != s.table.epoch
    ensures Inv(Finished(s, id, Released(s.table.entries, s.leases[id], id, s.stamp)))
  {
    hide EntryOk, LeaseOk, ClaimOk;
    var after := Released(s.table.entries, s.leases[id], id, s.stamp);
    var t := Finished(s, id, after);
    assert after.Keys == s.table.entries.Keys;
    forall u | u in after ensures EntryOk(t, u, after[u]) { ReleasedEntry(s, id, u); }
    forall other | other in t.leases ensures LeaseOk(t, t.leases[other]) && ClaimOk(t, other, t.leases[other]) {
      ReleasedLease(s, id, other);
    }
  }

  lemma CompleteKeepsInv(s: System, a: Action)
    requires Inv(s) && a.Complete? && Enabled(s, a)
    ensures Inv(Apply(s, a))
  {
    var l := s.leases[a.id];
    assert LeaseOk(s, l);
    hide EntryOk, LeaseOk, ClaimOk, SettledTo, Progress, Pruned, Released;
    if l.epoch != s.table.epoch {
      ReleaseKeepsInv(s, a.id);
    } else {
      CurrentLease(s, l);
      PruneKeepsInv(s, a.now);
      PrunedSubset(s.table, a.now);
      var p := s.(table := Pruned(s.table, a.now));
      SettledToProgress(l, |l.targets|, p.table.entries, a.result, a.now, s.stamp, a.jitter, a.hints);
      FinishKeepsInvWith(p, a.id, SettledTo(l, |l.targets|, p.table.entries, a.result, a.now, s.stamp, a.jitter, a.hints));
    }
  }

  lemma CurrentLease(s: System, l: Lease)
    requires LeaseOk(s, l) && l.epoch == s.table.epoch && !l.finished
    ensures !exists i :: 0 <= i < |l.targets| && !Current(s.table, l.targets[i])
  {
  }

  lemma ReloadKeepsInv(s: System, a: Action)
    requires Inv(s) && a.Reload? && Enabled(s, a)
    ensures Inv(Apply(s, a))
  {
    var t := Apply(s, a);
    assert t.table.entries.Keys <= s.table.entries.Keys;
    SubsetSize(t.table.entries.Keys, s.table.entries.Keys);
    forall u | u in t.table.entries ensures EntryOk(t, u, t.table.entries[u]) {
      assert EntryOk(s, u, s.table.entries[u]);
    }
    forall id | id in t.leases ensures LeaseOk(t, t.leases[id]) && ClaimOk(t, id, t.leases[id]) {
      assert LeaseOk(s, s.leases[id]) && ClaimOk(s, id, s.leases[id]);
    }
    hide EntryOk, LeaseOk, ClaimOk;
  }

  lemma StepKeepsInv(s: System, a: Action)
    requires Inv(s) && Enabled(s, a)
    ensures Inv(Apply(s, a))
  {
    hide Inv, Dispatched, Activated, CompletedTable, Pruned;
    match a
    case Reload(_, _, _) => ReloadKeepsInv(s, a);
    case Begin(_, _, _, _, _, _) => BeginKeepsInv(s, a);
    case Redispatch(id, now) => DispatchKeepsInv(s, id, now);
    case Complete(_, _, _, _, _) => CompleteKeepsInv(s, a);
    case Look(_, now) => PruneKeepsInv(s, now);
  }

  lemma {:induction false} RunKeepsInv(states: seq<System>, actions: seq<Action>, i: nat)
    requires Run(states, actions) && i < |states|
    ensures Inv(states[i])
  {
    hide Inv, Apply, Enabled;
    if i == 0 {
      InitialInv();
    } else {
      RunKeepsInv(states, actions, i - 1);
      StepKeepsInv(states[i - 1], actions[i - 1]);
    }
  }

  lemma InitialInv()
    ensures Inv(Initial())
  {
  }

  // ----- Main results -----

  // In every interleaving a probe belongs to one lease that is not finished and
  // covers its target, the table keeps its limit, and a finished lease owns
  // nothing, whichever epoch it ended in.
  lemma ProbesAreOwnedByOpenLeases(states: seq<System>, actions: seq<Action>, i: nat)
    requires Run(states, actions) && i < |states|
    ensures |states[i].table.entries| <= LIMIT
    ensures forall t :: t in states[i].table.entries && states[i].table.entries[t].probing ==>
              var owner := states[i].table.entries[t].owner;
              owner.Some? && owner.value in states[i].leases && !states[i].leases[owner.value].finished
              && Covers(states[i].leases[owner.value], t)
    ensures forall id :: id in states[i].leases && states[i].leases[id].finished ==> Unowned(states[i].table.entries, id)
  {
    RunKeepsInv(states, actions, i);
    var s := states[i];
    hide Run, LeaseOk, ClaimOk;
    assert forall t :: t in s.table.entries ==> EntryOk(s, t, s.table.entries[t]);
  }

  // A request goes out in its own epoch exactly when each of its targets is
  // healthy, due with no probe out, or probed by the request itself; and then
  // every failed target among them is probed by it and by nobody else.
  lemma DispatchIsExclusive(states: seq<System>, actions: seq<Action>, i: nat, id: nat, now: Time)
    requires Run(states, actions) && i < |states|
    requires id in states[i].leases && !states[i].leases[id].finished && states[i].leases[id].epoch == states[i].table.epoch
    ensures LeaseShape(states[i].leases[id])
    ensures
      var s := states[i];
      var l := s.leases[id];
      var p := Pruned(s.table, now);
      var d := Dispatched(s.table, l, id, now, s.stamp);
      && (d.blockedBy.None? <==> forall j :: 0 <= j < |l.targets| && l.targets[j] in p.entries ==>
            var e := p.entries[l.targets[j]];
            e.failures == 0 || (!e.probing && now >= e.retryAt) || e.owner == Some(id))
      && (d.blockedBy.None? ==> forall j :: 0 <= j < |l.targets| && l.targets[j] in d.table.entries
                                            && d.table.entries[l.targets[j]].failures > 0 ==>
            d.table.entries[l.targets[j]].probing && d.table.entries[l.targets[j]].owner == Some(id))
  {
    RunKeepsInv(states, actions, i);
    var s := states[i];
    hide Run;
    PruneKeepsInv(s, now);
    PrunedSubset(s.table, now);
    DispatchInPruned(s.(table := Pruned(s.table, now)), id, now);
  }

  lemma DispatchInPruned(s: System, id: nat, now: Time)
    requires Inv(s) && id in s.leases && !s.leases[id].finished && s.leases[id].epoch == s.table.epoch
    ensures LeaseShape(s.leases[id])
    ensures var l := s.leases[id];
            var blocked := FirstBlock(l, 0, s.table.entries, now);
            && (blocked.None? <==> forall j :: 0 <= j < |l.targets| && l.targets[j] in s.table.entries ==>
                  Eligible(s.table.entries[l.targets[j]], now) || s.table.entries[l.targets[j]].owner == Some(id))
            && (blocked.None? ==> forall j :: 0 <= j < |l.targets| && l.targets[j] in s.table.entries
                                              && s.table.entries[l.targets[j]].failures > 0 ==>
                  Claimed(l, id, s.table.entries)[l.targets[j]].probing
                  && Claimed(l, id, s.table.entries)[l.targets[j]].owner == Some(id))
  {
    var l := s.leases[id];
    assert LeaseOk(s, l) && ClaimOk(s, id, l);
    FirstBlockIsFirst(l, 0, s.table.entries, now);
    forall j | 0 <= j < |l.targets| && l.targets[j] in s.table.entries
      ensures Blocks(l, j, s.table.entries, now) <==>
                !Eligible(s.table.entries[l.targets[j]], now) && s.table.entries[l.targets[j]].owner != Some(id)
      ensures Covers(l, l.targets[j])
    {
      assert EntryOk(s, l.targets[j], s.table.entries[l.targets[j]]);
    }
    hide Inv, FirstBlock;
  }
}
