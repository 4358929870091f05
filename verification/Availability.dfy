// internal/gateway/availability.go: what is remembered of providers and models,
// and the leases under which requests probe a failed one. Each locked method is
// one function on the table and on the lease it is called with.
module Availability {
  import opened Basics
  import opened RecoveryBackoff

  const LIMIT: nat := 4096

  // An empty model stands for the whole provider.
  datatype Target = Target(provider: string, model: string, generation: nat)

  // `id` is the identity of the record: a record that replaces another at the
  // same target has a new one, an update in place keeps it.
  datatype Entry = Entry(
    id: nat, reason: string, failures: nat, lastSuccess: Time, lastFailure: Time, retryAt: Time, touched: Time,
    probing: bool, owner: Option<nat>)

  type Entries = map<Target, Entry>

  datatype Table = Table(epoch: nat, generations: map<string, nat>, entries: Entries, nextSweep: Time)

  // `seen` bounds the identities that existed when the lease last dispatched.
  datatype Lease = Lease(epoch: nat, targets: seq<Target>, recorded: seq<Option<nat>>, finished: bool, seen: nat)

  predicate Eligible(e: Entry, now: Time) {
    e.failures == 0 || (!e.probing && now >= e.retryAt)
  }

  function At(entries: Entries, t: Target): Option<nat> {
    if t in entries then Some(entries[t].id) else None
  }

  // ----- Pruning -----

  predicate Stale(e: Entry, now: Time) {
    !e.probing && now - e.touched >= DAY
  }

  function PrunedEntries(entries: Entries, now: Time): Entries {
    map t | t in entries && !Stale(entries[t], now) :: entries[t]
  }

  function Pruned(s: Table, now: Time): Table {
    if now < s.nextSweep then s else s.(nextSweep := now + MINUTE, entries := PrunedEntries(s.entries, now))
  }

  // ----- Leases -----

  predicate SafeModelChar(c: char) {
    'a' <= c <= 'z' || 'A' <= c <= 'Z' || '0' <= c <= '9' || c in "._/-:@"
  }

  predicate SafeModel(model: string) {
    0 < |model| <= 128 && forall i :: 0 <= i < |model| ==> SafeModelChar(model[i])
  }

  function TargetsOf(provider: string, model: string, generation: nat): seq<Target> {
    [Target(provider, "", generation)] + if SafeModel(model) then [Target(provider, model, generation)] else []
  }

  function NewLease(epoch: nat, targets: seq<Target>): Lease {
    Lease(epoch, targets, seq(|targets|, i => None), false, 0)
  }

  ghost predicate DistinctTargets(l: Lease) {
    forall i, j :: 0 <= i < j < |l.targets| ==> l.targets[i] != l.targets[j]
  }

  // The provider, and the model if its name is safe to remember.
  ghost predicate LeaseShape(l: Lease) {
    |l.recorded| == |l.targets| && 1 <= |l.targets| <= 2 && DistinctTargets(l)
  }

  predicate Covers(l: Lease, t: Target) {
    exists i :: 0 <= i < |l.targets| && l.targets[i] == t
  }

  // The lease knows the record at its i-th target.
  predicate Knows(l: Lease, i: nat, entries: Entries)
    requires |l.recorded| == |l.targets| && i < |l.targets|
  {
    l.recorded[i] == At(entries, l.targets[i])
  }

  // ----- Dispatch -----

  // A failed target blocks, unless the lease itself probes it or it is due.
  predicate Blocks(l: Lease, i: nat, entries: Entries, now: Time)
    requires |l.recorded| == |l.targets| && i < |l.targets|
  {
    var t := l.targets[i];
    t in entries && entries[t].failures > 0 && !(entries[t].probing && Knows(l, i, entries)) && !Eligible(entries[t], now)
  }

  function FirstBlock(l: Lease, i: nat, entries: Entries, now: Time): Option<nat>
    requires |l.recorded| == |l.targets|
    decreases |l.targets| - i
  {
    if i >= |l.targets| then None else if Blocks(l, i, entries, now) then Some(i) else FirstBlock(l, i + 1, entries, now)
  }

  predicate Claimable(l: Lease, e: Entry, t: Target) {
    Covers(l, t) && e.failures > 0 && !e.probing
  }

  function Claimed(l: Lease, id: nat, entries: Entries): Entries {
    map t | t in entries ::
      if Claimable(l, entries[t], t) then entries[t].(probing := true, owner := Some(id)) else entries[t]
  }

  function Recorded(targets: seq<Target>, entries: Entries): seq<Option<nat>> {
    seq(|targets|, i requires 0 <= i < |targets| => At(entries, targets[i]))
  }

  datatype Dispatch = Dispatch(table: Table, lease: Lease, blockedBy: Option<nat>)

  // `stamp` exceeds every identity in use.
  function Dispatched(s: Table, l: Lease, id: nat, now: Time, stamp: nat): Dispatch
    requires |l.recorded| == |l.targets|
  {
    if l.epoch != s.epoch then Dispatch(s, l, None)
    else
      var p := Pruned(s, now);
      var blocked := FirstBlock(l, 0, p.entries, now);
      if blocked.Some? then Dispatch(p, l, blocked)
      else
        Dispatch(p.(entries := Claimed(l, id, p.entries)),
                 l.(recorded := Recorded(l.targets, p.entries), seen := stamp), None)
  }

  // What a blocked request is told: a probe is out, or how long to wait.
  datatype Refusal = Refusal(probing: bool, delay: nat)

  function RefusalBy(e: Entry, now: Time): Refusal {
    Refusal(e.probing, if e.probing || e.retryAt <= now then 0 else e.retryAt - now)
  }

  // ----- Completion -----

  datatype RateWait = RateWait(failures: nat, until: Time)

  // The classified end of an attempt: an empty reason blames no scope.
  datatype Ending = Ending(
    handled: bool, cancelled: bool, failed: bool, attempted: bool, reason: string, modelScope: bool,
    cooldown: nat, wait: Option<RateWait>)

  predicate Success(r: Ending) {
    !r.handled && !r.cancelled && !r.failed
  }

  predicate Classified(r: Ending) {
    (r.reason != "" ==> r.failed && !r.handled && !r.cancelled) && (r.attempted ==> r.failed)
  }

  predicate Blames(r: Ending, t: Target) {
    r.reason != "" && r.modelScope == (t.model != "")
  }

  // A probe that failed unclassified after it was sent confirms the failure.
  predicate Fails(r: Ending, t: Target, previous: Option<Entry>) {
    Blames(r, t)
    || (previous.Some? && previous.value.probing && !Success(r) && !r.handled && !r.cancelled && r.attempted)
  }

  function Blank(now: Time, stamp: nat): Entry {
    Entry(stamp, "", 0, 0, 0, 0, now, false, None)
  }

  function NextEntry(t: Target, previous: Option<Entry>, r: Ending, now: Time, stamp: nat, jitter: nat -> nat): Entry {
    var base := if previous.Some? then previous.value.(id := stamp, touched := now, probing := false, owner := None)
                else Blank(now, stamp);
    if Success(r) then base.(lastSuccess := now, reason := "", failures := 0, retryAt := 0)
    else
      var reason := if Blames(r, t) then r.reason else base.reason;
      var failures := if base.failures < 16 then base.failures + 1 else base.failures;
      if r.reason == "rate_limited" && r.wait.Some? then
        base.(reason := reason, lastFailure := now, failures := Max(1, r.wait.value.failures),
              retryAt := if r.wait.value.until != 0 then r.wait.value.until else now + r.cooldown)
      else
        base.(reason := reason, lastFailure := now, failures := failures,
              retryAt := now + Delay(reason, failures, r.cooldown, jitter))
  }

  // Some least recently touched record that is not probing.
  ghost predicate Evictable(entries: Entries, v: Target) {
    v in entries && !entries[v].probing
    && forall t :: t in entries && !entries[t].probing ==> entries[v].touched <= entries[t].touched
  }

  predicate Occupied(entries: Entries, v: Target) {
    v in entries && !entries[v].probing
  }

  lemma {:induction false} SomeEvictable(entries: Entries, idle: set<Target>)
    requires idle != {} && forall t :: t in idle <==> Occupied(entries, t)
    ensures exists v :: Evictable(entries, v)
  {
    assert idle <= entries.Keys by {
      forall t | t in idle ensures t in entries { assert Occupied(entries, t); }
    }
    var v := LeastTouched(entries, idle);
    assert Occupied(entries, v);
    assert Evictable(entries, v) by {
      forall t | t in entries && !entries[t].probing ensures entries[v].touched <= entries[t].touched {
        assert Occupied(entries, t);
      }
    }
  }

  lemma {:induction false} LeastTouched(entries: Entries, idle: set<Target>) returns (v: Target)
    requires idle != {} && idle <= entries.Keys
    ensures v in idle && forall t :: t in idle ==> entries[v].touched <= entries[t].touched
    decreases |idle|
  {
    v :| v in idle;
    var rest := idle - {v};
    assert forall t :: t in idle ==> t == v || t in rest;
    if rest != {} {
      var w := LeastTouched(entries, rest);
      if entries[w].touched < entries[v].touched {
        v := w;
      }
    }
  }

  // Which of several least recently touched records goes is not determined:
  // the hint decides if it is one of them.
  ghost function Victim(entries: Entries, hint: Target): Option<Target> {
    if Evictable(entries, hint) then Some(hint)
    else if exists v :: Evictable(entries, v) then
      var v :| Evictable(entries, v);
      Some(v)
    else None
  }

  ghost function Put(entries: Entries, t: Target, e: Entry, hint: Target): Entries {
    if t in entries || |entries| < LIMIT then entries[t := e]
    else
      var v := Victim(entries, hint);
      if v.None? then entries else (entries - {v.value})[t := e]
  }

  function Previous(entries: Entries, t: Target): Option<Entry> {
    if t in entries then Some(entries[t]) else None
  }

  ghost function Settled(entries: Entries, t: Target, recorded: Option<nat>, r: Ending, now: Time, stamp: nat,
                         jitter: nat -> nat, hint: Target): Entries {
    var previous := Previous(entries, t);
    if At(entries, t) != recorded then entries
    else if Success(r) || Fails(r, t, previous) then Put(entries, t, NextEntry(t, previous, r, now, stamp, jitter), hint)
    else if previous.Some? && previous.value.probing then entries[t := previous.value.(probing := false, owner := None)]
    else entries
  }

  // The targets are settled in order.
  ghost function SettledTo(l: Lease, n: nat, entries: Entries, r: Ending, now: Time, stamp: nat, jitter: nat -> nat, hints: seq<Target>): Entries
    requires |l.recorded| == |l.targets| == |hints| && n <= |l.targets|
  {
    if n == 0 then entries
    else Settled(SettledTo(l, n - 1, entries, r, now, stamp, jitter, hints), l.targets[n - 1], l.recorded[n - 1], r, now, stamp,
                 jitter, hints[n - 1])
  }

  // In a later epoch only the lease's own claims are given up, over copies.
  function Released(entries: Entries, l: Lease, id: nat, stamp: nat): Entries {
    map t | t in entries ::
      if Covers(l, t) && entries[t].owner == Some(id) then entries[t].(id := stamp, probing := false, owner := None)
      else entries[t]
  }

  predicate Current(s: Table, t: Target) {
    t.provider in s.generations && s.generations[t.provider] == t.generation
  }

  ghost function CompletedTable(s: Table, l: Lease, id: nat, r: Ending, now: Time, stamp: nat, jitter: nat -> nat, hints: seq<Target>): Table
    requires |l.recorded| == |l.targets| == |hints|
  {
    if l.epoch != s.epoch then s.(entries := Released(s.entries, l, id, stamp))
    else if exists i :: 0 <= i < |l.targets| && !Current(s, l.targets[i]) then s
    else
      var p := Pruned(s, now);
      p.(entries := SettledTo(l, |l.targets|, p.entries, r, now, stamp, jitter, hints))
  }

  // ----- Reload -----

  predicate Survives(t: Target, generations: map<string, nat>, valid: Target -> bool) {
    && t.provider in generations && generations[t.provider] == t.generation
    && (t.model != "" ==> valid(t))
  }

  function Activated(s: Table, epoch: nat, generations: map<string, nat>, valid: Target -> bool, stamp: nat): Table {
    Table(epoch, generations,
          map t | t in s.entries && Survives(t, generations, valid) :: s.entries[t].(id := stamp), s.nextSweep)
  }
}
