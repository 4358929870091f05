// A run of internal/gateway/availability.go in which an older success erases a
// newer failure: a full table of failed models of one provider, the failure in
// question being the least recently touched.
module AvailabilityWitness {
  import opened Basics
  import opened RecoveryBackoff
  import opened Availability
  import opened AvailabilityRuns
  import opened AvailabilityFence

  const PROVIDER := Target("a", "", 0)
  const MODEL := Target("a", "x", 0)
  const FAILURE := Ending(false, false, true, true, "upstream_error", true, 0, None)
  const SUCCESS := Ending(false, false, false, false, "", false, 0, None)

  // ----- Runs, one step longer -----

  ghost predicate Ends(states: seq<System>, actions: seq<Action>, s: System) {
    Run(states, actions) && states[|actions|] == s
  }

  ghost predicate Reachable(s: System) {
    exists states, actions :: Ends(states, actions, s)
  }

  lemma StartIsReachable()
    ensures Reachable(Initial())
  {
    var states, actions: seq<Action> := [Initial()], [];
    assert Ends(states, actions, Initial());
  }

  lemma StepIsReachable(s: System, a: Action)
    requires Reachable(s) && Enabled(s, a)
    ensures Reachable(Apply(s, a))
  {
    hide Enabled, Apply;
    var states, actions :| Ends(states, actions, s);
    var longer, steps := states + [Apply(s, a)], actions + [a];
    forall i | 0 <= i < |steps| ensures Enabled(longer[i], steps[i]) && longer[i + 1] == Apply(longer[i], steps[i]) {
      if i < |actions| { assert longer[i] == states[i] && longer[i + 1] == states[i + 1] && steps[i] == actions[i]; }
    }
    assert Ends(longer, steps, Apply(s, a));
  }

  // ----- Safe model names -----

  function Digit(d: int): char
    requires 0 <= d < 10
  {
    "0123456789"[d]
  }

  function Name(i: nat): string
    requires i < 10000
  {
    [Digit(i / 1000), Digit(i / 100 % 10), Digit(i / 10 % 10), Digit(i % 10)]
  }

  lemma DigitsDiffer(d: int, e: int)
    requires 0 <= d < 10 && 0 <= e < 10 && Digit(d) == Digit(e)
    ensures d == e
  {
  }

  lemma Decimal(i: nat)
    requires i < 10000
    ensures i == 1000 * (i / 1000) + 100 * (i / 100 % 10) + 10 * (i / 10 % 10) + i % 10
  {
    assert i / 100 == 10 * (i / 1000) + i / 100 % 10;
    assert i / 10 == 10 * (i / 100) + i / 10 % 10;
  }

  lemma SameDigits(i: nat, j: nat)
    requires i < 10000 && j < 10000 && Name(i) == Name(j)
    ensures Digit(i / 1000) == Digit(j / 1000) && Digit(i / 100 % 10) == Digit(j / 100 % 10)
    ensures Digit(i / 10 % 10) == Digit(j / 10 % 10) && Digit(i % 10) == Digit(j % 10)
  {
    hide Digit;
    var a, b := Name(i), Name(j);
    assert a[0] == b[0] && a[1] == b[1] && a[2] == b[2] && a[3] == b[3];
  }

  lemma NamesDiffer(i: nat, j: nat)
    requires i < 10000 && j < 10000 && Name(i) == Name(j)
    ensures i == j
  {
    SameDigits(i, j);
    hide Name, Digit;
    DigitsDiffer(i / 1000, j / 1000);
    DigitsDiffer(i / 100 % 10, j / 100 % 10);
    DigitsDiffer(i / 10 % 10, j / 10 % 10);
    DigitsDiffer(i % 10, j % 10);
    Decimal(i);
    Decimal(j);
  }

  lemma NameIsSafe(i: nat)
    requires i < 10000
    ensures SafeModel(Name(i)) && Name(i) != "x"
  {
    forall d | 0 <= d < 10 ensures SafeModelChar(Digit(d)) {}
  }

  // ----- One failed attempt on a model that nothing is known of -----

  ghost predicate Quiet(s: System, now: Time) {
    && s.table.epoch == 1 && s.table.generations == map["a" := 0] && now < s.table.nextSweep
    && PROVIDER !in s.table.entries && |s.table.entries| < LIMIT
  }

  function Unknown(n: nat): seq<Option<nat>> {
    if n == 0 then [] else Unknown(n - 1) + [None]
  }

  lemma {:induction false} UnknownAt(n: nat)
    ensures |Unknown(n)| == n && forall i :: 0 <= i < n ==> Unknown(n)[i] == None
  {
    if n > 0 {
      UnknownAt(n - 1);
    }
  }

  lemma UnknownIsNotBlocked(l: Lease, entries: Entries, now: Time)
    requires |l.recorded| == |l.targets| && 1 <= |l.targets| <= 2 && forall i :: 0 <= i < |l.targets| ==> l.targets[i] !in entries
    ensures FirstBlock(l, 0, entries, now) == None
    ensures forall id :: Claimed(l, id, entries) == entries
    ensures Recorded(l.targets, entries) == Unknown(|l.targets|)
  {
    FirstBlockIsFirst(l, 0, entries, now);
    UnknownAt(|l.targets|);
    assert Recorded(l.targets, entries) == Unknown(|l.targets|);
    forall id ensures Claimed(l, id, entries) == entries {
      var claimed := Claimed(l, id, entries);
      assert claimed.Keys == entries.Keys;
    }
  }

  lemma BeginUnknown(s: System, id: nat, model: string, now: Time)
    requires s.table.epoch == 1 && s.table.generations == map["a" := 0] && PROVIDER !in s.table.entries
    requires id !in s.leases && Target("a", model, 0) !in s.table.entries
    ensures var a := Begin(id, 1, "a", model, 0, now);
            Enabled(s, a)
            && Apply(s, a).stamp == s.stamp + 1
            && (Pruned(s.table, now).entries == s.table.entries ==>
                  Apply(s, a).table == Pruned(s.table, now)
                  && var targets := TargetsOf("a", model, 0);
                     Apply(s, a).leases == s.leases[id := Lease(1, targets, Unknown(|targets|), false, s.stamp)])
  {
    var targets := TargetsOf("a", model, 0);
    var l := NewLease(1, targets);
    if Pruned(s.table, now).entries == s.table.entries {
      UnknownIsNotBlocked(l, s.table.entries, now);
      hide FirstBlock, Claimed, Recorded, Pruned;
      var p := Pruned(s.table, now);
      assert p.(entries := p.entries) == p;
    }
  }

  lemma PutUnknown(entries: Entries, model: string, now: Time, stamp: nat, jitter: nat -> nat, hints: seq<Target>)
    requires PROVIDER !in entries && Target("a", model, 0) !in entries && |entries| < LIMIT && model != "" && |hints| == 2
    ensures var t := Target("a", model, 0);
            var first := Settled(entries, PROVIDER, None, FAILURE, now, stamp, jitter, hints[0]);
            first == entries
            && Settled(first, t, None, FAILURE, now, stamp, jitter, hints[1])
               == entries[t := NextEntry(t, None, FAILURE, now, stamp, jitter)]
  {
    hide NextEntry;
  }

  lemma CompleteUnknown(s: System, id: nat, model: string, now: Time, jitter: nat -> nat)
    requires Quiet(s, now) && id in s.leases && SafeModel(model) && Target("a", model, 0) !in s.table.entries
    requires s.leases[id] == Lease(1, [PROVIDER, Target("a", model, 0)], [None, None], false, s.leases[id].seen)
    ensures var t := Target("a", model, 0);
            var a := Complete(id, FAILURE, now, jitter, [t, t]);
            Enabled(s, a)
            && Apply(s, a) == System(s.table.(entries := s.table.entries[t := NextEntry(t, None, FAILURE, now, s.stamp, jitter)]),
                                     s.leases[id := s.leases[id].(finished := true)], s.stamp + 1)
  {
    hide NextEntry, Settled, SafeModel;
    var t := Target("a", model, 0);
    var l := s.leases[id];
    assert model != "" by { SafeIsNamed(model); }
    TwoTargets(l, PROVIDER, t, s.table.entries, FAILURE, now, s.stamp, jitter, [t, t]);
    PutUnknown(s.table.entries, model, now, s.stamp, jitter, [t, t]);
    hide SettledTo;
    assert forall i :: 0 <= i < |l.targets| ==> Current(s.table, l.targets[i]);
    assert Pruned(s.table, now) == s.table;
  }

  lemma SafeIsNamed(model: string)
    requires SafeModel(model)
    ensures model != "" && TargetsOf("a", model, 0) == [PROVIDER, Target("a", model, 0)]
  {
  }

  lemma BeginReaches(s: System, id: nat, model: string, now: Time) returns (m: System)
    requires Reachable(s) && Quiet(s, now) && id !in s.leases && SafeModel(model) && Target("a", model, 0) !in s.table.entries
    ensures Reachable(m)
    ensures m == System(s.table, s.leases[id := Lease(1, [PROVIDER, Target("a", model, 0)], [None, None], false, s.stamp)], s.stamp + 1)
  {
    hide Apply, Enabled, Reachable, TargetsOf, SafeModel, Unknown;
    SafeIsNamed(model);
    BeginUnknown(s, id, model, now);
    assert Pruned(s.table, now) == s.table;
    StepIsReachable(s, Begin(id, 1, "a", model, 0, now));
    m := Apply(s, Begin(id, 1, "a", model, 0, now));
    TwoUnknown();
  }

  lemma TwoUnknown()
    ensures Unknown(1) == [None] && Unknown(2) == [None, None]
  {
    assert Unknown(1) == Unknown(0) + [None];
  }

  // Begin and complete: the model's record is added and nothing else changes.
  lemma AddFailure(s: System, id: nat, model: string, now: Time, jitter: nat -> nat) returns (t: System)
    requires Reachable(s) && Quiet(s, now) && id !in s.leases && SafeModel(model) && Target("a", model, 0) !in s.table.entries
    ensures Reachable(t) && t.stamp == s.stamp + 2
    ensures var u := Target("a", model, 0);
            t.table == s.table.(entries := s.table.entries[u := NextEntry(u, None, FAILURE, now, s.stamp + 1, jitter)])
    ensures t.leases.Keys == s.leases.Keys + {id} && forall k :: k in s.leases ==> t.leases[k] == s.leases[k]
  {
    hide NextEntry, Apply, Enabled, Reachable, TargetsOf, SafeModel;
    var u := Target("a", model, 0);
    var m := BeginReaches(s, id, model, now);
    assert Quiet(m, now);
    hide Quiet;
    CompleteUnknown(m, id, model, now, jitter);
    StepIsReachable(m, Complete(id, FAILURE, now, jitter, [u, u]));
    t := Apply(m, Complete(id, FAILURE, now, jitter, [u, u]));
  }

  lemma FailureRecord(t: Target, now: Time, stamp: nat, jitter: nat -> nat)
    requires t.model != ""
    ensures var e := NextEntry(t, None, FAILURE, now, stamp, jitter);
            e.id == stamp && e.failures == 1 && e.touched == now && !e.probing && e.owner == None
  {
    hide Delay;
  }

  // ----- Filling the table -----

  // Two leases that dispatched before anything was known, the newer failure of
  // MODEL, and n failures of other models after it.
  ghost predicate Filled(s: System, n: nat) {
    && s.table.epoch == 1 && s.table.generations == map["a" := 0] && s.table.nextSweep == 1 + MINUTE
    && PROVIDER !in s.table.entries && MODEL in s.table.entries && |s.table.entries| == n + 1
    && Older(s.table.entries[MODEL], s)
    && (forall t :: t in s.table.entries && t != MODEL ==> !s.table.entries[t].probing && s.table.entries[t].touched == 2)
    && (forall i :: n <= i < 10000 ==> Target("a", Name(i), 0) !in s.table.entries)
    && (forall id :: id in s.leases ==> id < n + 3)
  }

  ghost predicate Older(e: Entry, s: System) {
    && e.failures > 0 && !e.probing && e.touched == 1
    && 0 in s.leases && s.leases[0] == Lease(1, [PROVIDER, MODEL], [None, None], false, s.leases[0].seen)
    && 1 in s.leases && s.leases[1] == Lease(1, [PROVIDER], [None], false, s.leases[1].seen)
    && Newer(s.leases[0], e) && Newer(s.leases[1], e)
  }

  lemma AddName(s: System, n: nat, jitter: nat -> nat) returns (t: System)
    requires Reachable(s) && Filled(s, n) && n + 1 < LIMIT
    ensures Reachable(t) && Filled(t, n + 1)
  {
    hide Reachable, Name, NextEntry;
    NameIsSafe(n);
    var u := Target("a", Name(n), 0);
    t := AddFailure(s, n + 3, Name(n), 2, jitter);
    SafeIsNamed(Name(n));
    FailureRecord(u, 2, s.stamp + 1, jitter);
    assert t.table.entries.Keys == s.table.entries.Keys + {u};
    forall i | n + 1 <= i < 10000 ensures Target("a", Name(i), 0) !in t.table.entries {
      if Name(i) == Name(n) { NamesDiffer(i, n); }
    }
  }

  lemma {:induction false} Fill(s: System, n: nat, m: nat, jitter: nat -> nat) returns (t: System)
    requires Reachable(s) && Filled(s, n) && n <= m < LIMIT
    ensures Reachable(t) && Filled(t, m)
    decreases m - n
  {
    hide Reachable, Filled;
    t := s;
    if n < m {
      t := AddName(s, n, jitter);
      t := Fill(t, n + 1, m, jitter);
    }
  }

  ghost predicate Opened(s: System) {
    && s.table == Table(1, map["a" := 0], map[], 1 + MINUTE) && s.stamp == 3
    && s.leases == map[0 := Lease(1, [PROVIDER, MODEL], [None, None], false, 1), 1 := Lease(1, [PROVIDER], [None], false, 2)]
  }

  lemma Opening(valid: Target -> bool) returns (s: System)
    ensures Reachable(s) && Opened(s)
  {
    StartIsReachable();
    var reload := Reload(1, map["a" := 0], valid);
    var first := Initial();
    assert Activated(first.table, 1, map["a" := 0], valid, 0).entries == map[];
    StepIsReachable(first, reload);
    var s1 := Apply(first, reload);
    assert s1 == System(Table(1, map["a" := 0], map[], 0), map[], 1);
    hide Reachable, Apply, Enabled;
    SafeIsNamed("x");
    assert Pruned(s1.table, 1) == Table(1, map["a" := 0], map[], 1 + MINUTE) by {
      assert PrunedEntries(map[], 1) == map[];
    }
    BeginUnknown(s1, 0, "x", 1);
    StepIsReachable(s1, Begin(0, 1, "a", "x", 0, 1));
    var s2 := Apply(s1, Begin(0, 1, "a", "x", 0, 1));
    assert s2.leases[0].recorded == [None, None];
    assert TargetsOf("a", "", 0) == [PROVIDER];
    BeginUnknown(s2, 1, "", 1);
    StepIsReachable(s2, Begin(1, 1, "a", "", 0, 1));
    s := Apply(s2, Begin(1, 1, "a", "", 0, 1));
    assert s.leases[1].recorded == [None];
  }

  lemma FirstFailure(jitter: nat -> nat, valid: Target -> bool) returns (s: System)
    ensures Reachable(s) && Filled(s, 0)
  {
    hide *;
    NamesAreOther();
    var start := Opening(valid);
    QuietAtFirst(start);
    s := AddFailure(start, 2, "x", 1, jitter);
    FilledAtFirst(start, s, jitter);
  }

  lemma QuietAtFirst(s: System)
    requires Opened(s)
    ensures Quiet(s, 1) && 2 !in s.leases && Target("a", "x", 0) !in s.table.entries
  {
  }

  lemma FilledAtFirst(start: System, s: System, jitter: nat -> nat)
    requires Opened(start)
    requires var u := Target("a", "x", 0);
             s.table == start.table.(entries := start.table.entries[u := NextEntry(u, None, FAILURE, 1, start.stamp + 1, jitter)])
    requires s.leases.Keys == start.leases.Keys + {2} && forall k :: k in start.leases ==> s.leases[k] == start.leases[k]
    ensures Filled(s, 0)
  {
    NamesAreOther();
    FailureRecord(MODEL, 1, 4, jitter);
    hide NextEntry, Name, SafeModel;
    assert Older(s.table.entries[MODEL], s) by {
      assert 0 in start.leases && 1 in start.leases;
    }
    hide Older;
  }

  lemma NamesAreOther()
    ensures SafeModel("x") && forall i :: 0 <= i < 10000 ==> Target("a", Name(i), 0) != MODEL
  {
    forall i | 0 <= i < 10000 ensures Target("a", Name(i), 0) != MODEL { NameIsSafe(i); }
  }

  lemma FullTable(jitter: nat -> nat, valid: Target -> bool) returns (s: System)
    ensures Reachable(s) && Filled(s, LIMIT - 1)
  {
    hide Reachable, Filled;
    s := FirstFailure(jitter, valid);
    s := Fill(s, 0, LIMIT - 1, jitter);
  }

  // ----- The older success -----

  lemma FullEvicts(s: System)
    requires Filled(s, LIMIT - 1)
    ensures Evictable(s.table.entries, MODEL) && Victim(s.table.entries, MODEL) == Some(MODEL)
    ensures Pruned(s.table, 2) == s.table
  {
    assert Evictable(s.table.entries, MODEL);
  }

  // In a reachable state a lease that knew of no record completes with success,
  // and a failure recorded after its dispatch is gone: rewritten as healthy if
  // the lease covers the model, deleted if it covers the provider alone.
  lemma OlderSuccessErasesNewerFailure(jitter: nat -> nat, valid: Target -> bool) returns (s: System)
    ensures Reachable(s) && MODEL in s.table.entries && s.table.entries[MODEL].failures > 0
    ensures 0 in s.leases && 1 in s.leases && Newer(s.leases[0], s.table.entries[MODEL]) && Newer(s.leases[1], s.table.entries[MODEL])
    ensures var a := Complete(0, SUCCESS, 2, jitter, [MODEL, MODEL]);
            Enabled(s, a) && MODEL in Apply(s, a).table.entries && Apply(s, a).table.entries[MODEL].failures == 0
    ensures var a := Complete(1, SUCCESS, 2, jitter, [MODEL]);
            Enabled(s, a) && MODEL !in Apply(s, a).table.entries
  {
    hide *;
    s := FullTable(jitter, valid);
    FailureIsNewer(s);
    LeaseRewrites(s, jitter);
    LeaseDeletes(s, jitter);
  }

  lemma FailureIsNewer(s: System)
    requires Filled(s, LIMIT - 1)
    ensures MODEL in s.table.entries && s.table.entries[MODEL].failures > 0 && 0 in s.leases && 1 in s.leases
    ensures Newer(s.leases[0], s.table.entries[MODEL]) && Newer(s.leases[1], s.table.entries[MODEL])
  {
    hide Name;
  }

  lemma LeaseRewrites(s: System, jitter: nat -> nat)
    requires Filled(s, LIMIT - 1)
    ensures var a := Complete(0, SUCCESS, 2, jitter, [MODEL, MODEL]);
            Enabled(s, a) && MODEL in Apply(s, a).table.entries && Apply(s, a).table.entries[MODEL].failures == 0
  {
    hide Name, NextEntry, Settled, SettledTo, Evictable, Victim, Pruned;
    FullEvicts(s);
    TwoTargets(s.leases[0], PROVIDER, MODEL, s.table.entries, SUCCESS, 2, s.stamp, jitter, [MODEL, MODEL]);
    RewrittenHealthy(s.table.entries, 2, s.stamp, jitter);
  }

  lemma LeaseDeletes(s: System, jitter: nat -> nat)
    requires Filled(s, LIMIT - 1)
    ensures var a := Complete(1, SUCCESS, 2, jitter, [MODEL]);
            Enabled(s, a) && MODEL !in Apply(s, a).table.entries
  {
    hide Name;
    FullEvicts(s);
    var entries := s.table.entries;
    assert SettledTo(s.leases[1], 0, entries, SUCCESS, 2, s.stamp, jitter, [MODEL]) == entries;
    MadeRoomIsGone(entries, PROVIDER, None, SUCCESS, 2, s.stamp, jitter, MODEL, MODEL);
    hide Settled, Evictable, Victim;
  }

  lemma RewrittenHealthy(entries: Entries, now: Time, stamp: nat, jitter: nat -> nat)
    requires PROVIDER !in entries && MODEL in entries && |entries| == LIMIT && Victim(entries, MODEL) == Some(MODEL)
    ensures var first := Settled(entries, PROVIDER, None, SUCCESS, now, stamp, jitter, MODEL);
            var after := Settled(first, MODEL, None, SUCCESS, now, stamp, jitter, MODEL);
            MODEL in after && after[MODEL].failures == 0
  {
    var e, f := NextEntry(PROVIDER, None, SUCCESS, now, stamp, jitter), NextEntry(MODEL, None, SUCCESS, now, stamp, jitter);
    WrittenRecord(PROVIDER, None, SUCCESS, now, stamp, jitter);
    WrittenRecord(MODEL, None, SUCCESS, now, stamp, jitter);
    hide NextEntry, Victim, Evictable;
    var first := Settled(entries, PROVIDER, None, SUCCESS, now, stamp, jitter, MODEL);
    assert first == (entries - {MODEL})[PROVIDER := e];
    assert first.Keys == entries.Keys - {MODEL} + {PROVIDER};
    StoredOnFullTable(first, MODEL, f, PROVIDER, MODEL);
  }

  // A full table with an idle record always has room for one more.
  lemma StoredOnFullTable(entries: Entries, t: Target, e: Entry, idle: Target, hint: Target)
    requires idle in entries && !entries[idle].probing && t !in entries
    ensures t in Put(entries, t, e, hint) && Put(entries, t, e, hint)[t] == e
  {
    var idles := set u | u in entries && Occupied(entries, u);
    assert idle in idles;
    SomeEvictable(entries, idles);
    VictimIsEvictable(entries, hint);
  }
}
