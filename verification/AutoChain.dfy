// internal/gateway/auto_chain.go: a configured order of provider/model entries,
// a cursor for new bindings, remembered failures and bound sessions. One
// function per locked method, and what every run of them keeps.
module AutoChain {
  import opened Basics
  import opened RecoveryBackoff

  const SESSION_TTL: nat := DAY

  datatype Entry = Entry(provider: string, model: string)

  datatype Binding = Binding(index: nat, lastTouch: Time)

  // A failure record is known by its identity, so that a probe that was
  // superseded can be told from the record that replaced it.
  datatype Failure = Failure(id: nat, retryAt: Time, probing: bool)

  datatype Chain = Chain(
    entries: seq<Entry>, next: nat, ttl: nat, lastPrune: Time,
    sessions: map<string, Binding>, failed: map<nat, Failure>)

  datatype CallError = CallError(
    code: string, category: string, failoverSafe: bool, notAttempted: bool, cooldown: int)

  function NewChain(entries: seq<Entry>, idleTTL: nat): Chain {
    Chain(entries, 0, Max(idleTTL, SESSION_TTL), 0, map[], map[])
  }

  ghost predicate Distinct(entries: seq<Entry>) {
    forall i, j :: 0 <= i < j < |entries| ==> entries[i] != entries[j]
  }

  predicate EligibleFailure(f: Failure, now: Time) {
    !f.probing && now >= f.retryAt
  }

  predicate Eligible(s: Chain, i: nat, now: Time) {
    i !in s.failed || EligibleFailure(s.failed[i], now)
  }

  predicate Usable(s: Chain, i: nat, now: Time, available: Entry -> bool) {
    i < |s.entries| && Eligible(s, i, now) && available(s.entries[i])
  }

  predicate Idle(b: Binding, now: Time, ttl: nat) {
    now - b.lastTouch >= ttl
  }

  // ----- Choosing an entry -----

  function PrunedSessions(sessions: map<string, Binding>, now: Time, ttl: nat): map<string, Binding> {
    map k | k in sessions && !Idle(sessions[k], now, ttl) :: sessions[k]
  }

  function Pruned(s: Chain, now: Time): Chain {
    if s.lastPrune == 0 || now - s.lastPrune >= MINUTE
    then s.(sessions := PrunedSessions(s.sessions, now, s.ttl), lastPrune := now)
    else s
  }

  // The first usable entry at or after `from`.
  function FirstUsable(s: Chain, from: nat, now: Time, available: Entry -> bool): Option<nat>
    decreases |s.entries| - from
  {
    if from >= |s.entries| then None
    else if Usable(s, from, now, available) then Some(from)
    else FirstUsable(s, from + 1, now, available)
  }

  // The first entry before the cursor that failed and is usable again.
  function FirstRecovered(s: Chain, from: nat, now: Time, available: Entry -> bool): Option<nat>
    decreases |s.entries| - from
  {
    if from >= s.next || from >= |s.entries| then None
    else if from in s.failed && Usable(s, from, now, available) then Some(from)
    else FirstRecovered(s, from + 1, now, available)
  }

  function NewBinding(s: Chain, now: Time, available: Entry -> bool): Option<nat> {
    var recovered := FirstRecovered(s, 0, now, available);
    FirstUsable(s, if recovered.Some? then recovered.value else s.next, now, available)
  }

  predicate Sticks(s: Chain, key: string, now: Time, available: Entry -> bool) {
    key in s.sessions && !Idle(s.sessions[key], now, s.ttl) && Usable(s, s.sessions[key].index, now, available)
  }

  function Bound(s: Chain, key: string, i: nat, now: Time): Chain {
    s.(sessions := s.sessions[key := Binding(i, now)])
  }

  function Unbound(s: Chain, key: string): Chain {
    s.(sessions := s.sessions - {key})
  }

  datatype Selection = Selection(chain: Chain, index: Option<nat>)

  function Select(s: Chain, key: string, sticky: bool, now: Time, available: Entry -> bool): Selection {
    if s.entries == [] then Selection(s, None)
    else if !sticky then Selection(s, NewBinding(s, now, available))
    else
      var p := Pruned(s, now);
      if Sticks(p, key, now, available) then Selection(Bound(p, key, p.sessions[key].index, now), Some(p.sessions[key].index))
      else
        var u := Unbound(p, key);
        var i := NewBinding(u, now, available);
        Selection(if i.Some? then Bound(u, key, i.value, now) else u, i)
  }

  // A binding that is still live is renewed, whatever the health of its entry.
  function Touch(s: Chain, key: string, now: Time): Selection {
    if key in s.sessions && !Idle(s.sessions[key], now, s.ttl) && s.sessions[key].index < |s.entries|
    then Selection(Bound(s, key, s.sessions[key].index, now), Some(s.sessions[key].index))
    else Selection(s, None)
  }

  // ----- Failures and recoveries -----

  function FailureAdvances(err: Option<CallError>, cancelled: bool, delivered: bool): bool {
    if err.None? || !err.value.failoverSafe || cancelled then false
    else if err.value.code == "upstream_transport_error" && err.value.notAttempted then !delivered
    else err.value.category in {"model_not_found", "insufficient_balance", "quota_exhausted", "temporarily_unavailable"}
  }

  function RecoveryCooldown(err: Option<CallError>): nat {
    if err.None? then ROUTE_COOLDOWN else Max(FirstDelay(err.value.category), err.value.cooldown)
  }

  function Advanced(next: nat, failed: map<nat, Failure>, n: nat): nat
    decreases n - next
  {
    if next < n && next in failed then Advanced(next + 1, failed, n) else next
  }

  function KeptSessions(sessions: map<string, Binding>, i: nat): map<string, Binding> {
    map k | k in sessions && sessions[k].index != i :: sessions[k]
  }

  // `id` is the identity of the record that is allocated.
  function RecordFailure(s: Chain, i: int, err: Option<CallError>, cancelled: bool, delivered: bool, retain: bool,
                         now: Time, id: nat): Chain {
    if !FailureAdvances(err, cancelled, delivered) || !(0 <= i < |s.entries|) then s
    else
      var failed := s.failed[i := Failure(id, now + RecoveryCooldown(err), false)];
      s.(failed := failed, sessions := if retain then s.sessions else KeptSessions(s.sessions, i),
         next := Advanced(s.next, failed, |s.entries|))
  }

  datatype Probe = Probe(chain: Chain, probe: Option<nat>, allowed: bool)

  function BeginRecovery(s: Chain, i: nat, now: Time): Probe {
    if i !in s.failed then Probe(s, None, true)
    else if !EligibleFailure(s.failed[i], now) then Probe(s, None, false)
    else Probe(s.(failed := s.failed[i := s.failed[i].(probing := true)]), Some(s.failed[i].id), true)
  }

  datatype Outcome = Outcome(handled: bool, cancelled: bool, failed: bool, err: Option<CallError>)

  predicate Confirms(o: Outcome) {
    !o.handled && !o.cancelled && !o.failed
  }

  function Completed(f: Failure, o: Outcome, now: Time): Failure {
    var released := f.(probing := false);
    if o.handled || o.cancelled || !o.failed then released
    else if o.err.Some? && o.err.value.notAttempted then released
    else released.(retryAt := now + RecoveryCooldown(o.err))
  }

  function FinishRecovery(s: Chain, i: nat, probe: Option<nat>, o: Outcome, now: Time): Chain {
    if probe.None? || i !in s.failed || s.failed[i].id != probe.value then s
    else if Confirms(o) then s.(failed := s.failed - {i}, next := Min(s.next, i))
    else s.(failed := s.failed[i := Completed(s.failed[i], o, now)])
  }

  // ----- Lowering the cursor -----

  // The least member of `indices` below `next`, or `next` itself.
  function Lowered(next: nat, indices: set<nat>): nat {
    if next == 0 then 0
    else
      var lower := Lowered(next - 1, indices);
      if lower < next - 1 then lower else if next - 1 in indices then next - 1 else next
  }

  lemma {:induction false} LoweredIsLeast(next: nat, indices: set<nat>)
    ensures Lowered(next, indices) <= next
    ensures Lowered(next, indices) < next ==> Lowered(next, indices) in indices
    ensures forall i :: 0 <= i < Lowered(next, indices) ==> i !in indices
  {
    if next > 0 {
      LoweredIsLeast(next - 1, indices);
    }
  }

  lemma LoweredBy(next: nat, indices: set<nat>, i: nat)
    ensures Lowered(next, indices + {i}) == Min(Lowered(next, indices), i)
  {
    LoweredIsLeast(next, indices);
    LoweredIsLeast(next, indices + {i});
    hide Lowered;
    var a, b := Lowered(next, indices), Lowered(next, indices + {i});
    assert a < next ==> a in indices + {i};
    assert b < next && b != i ==> b in indices;
  }

  function OfProvider(s: Chain, provider: string): set<nat> {
    set i | i in s.failed && i < |s.entries| && s.entries[i].provider == provider
  }

  function RestoreProvider(s: Chain, provider: string): Chain {
    var healed := OfProvider(s, provider);
    s.(failed := s.failed - healed, next := Lowered(s.next, healed))
  }

  // ----- Reload -----

  function IndexOf(entries: seq<Entry>, e: Entry): Option<nat> {
    if entries == [] then None
    else if entries[|entries| - 1] == e then Some(|entries| - 1)
    else IndexOf(entries[..|entries| - 1], e)
  }

  lemma {:induction false} IndexOfFinds(entries: seq<Entry>, e: Entry)
    ensures var i := IndexOf(entries, e);
            if i.Some? then i.value < |entries| && entries[i.value] == e else forall j :: 0 <= j < |entries| ==> entries[j] != e
  {
    if entries != [] {
      IndexOfFinds(entries[..|entries| - 1], e);
      assert forall j :: 0 <= j < |entries| - 1 ==> entries[..|entries| - 1][j] == entries[j];
    }
  }

  // Old indices whose failure is carried over, and those that are eligible again.
  predicate Carried(s: Chain, entries: seq<Entry>, preserve: set<Entry>, i: nat) {
    i < |s.entries| && IndexOf(entries, s.entries[i]).Some? && s.entries[i] in preserve
  }

  function Reset(s: Chain, entries: seq<Entry>, preserve: set<Entry>): set<nat> {
    set i | i in s.failed && i < |s.entries| && IndexOf(entries, s.entries[i]).Some? && s.entries[i] !in preserve
  }

  predicate FailureCarriedTo(s: Chain, entries: seq<Entry>, preserve: set<Entry>, j: nat) {
    && j < |entries| && entries[j] in preserve && IndexOf(entries, entries[j]) == Some(j)
    && IndexOf(s.entries, entries[j]).Some? && IndexOf(s.entries, entries[j]).value in s.failed
  }

  // The copies forget who was probing. `ids` names the copies.
  function CarriedFailures(s: Chain, entries: seq<Entry>, preserve: set<Entry>, ids: nat): map<nat, Failure> {
    map j: nat | 0 <= j < |entries| && FailureCarriedTo(s, entries, preserve, j) ::
      Failure(ids + j, s.failed[IndexOf(s.entries, entries[j]).value].retryAt, false)
  }

  predicate SessionCarried(s: Chain, entries: seq<Entry>, preserve: set<Entry>, key: string, now: Time) {
    && key in s.sessions && !Idle(s.sessions[key], now, s.ttl)
    && Carried(s, entries, preserve, s.sessions[key].index)
  }

  function CarriedSessions(s: Chain, entries: seq<Entry>, preserve: set<Entry>, now: Time): map<string, Binding> {
    map key | key in s.sessions && SessionCarried(s, entries, preserve, key, now) ::
      s.sessions[key].(index := IndexOf(entries, s.entries[s.sessions[key].index]).value)
  }

  // One lowering per entry that failed and is eligible again.
  function Reconfigured(s: Chain, entries: seq<Entry>, idleTTL: nat, preserve: set<Entry>, preserveFailures: set<Entry>,
                        reset: bool, now: Time, ids: nat): Chain {
    NewChain(entries, idleTTL).(
      failed := CarriedFailures(s, entries, preserveFailures, ids),
      sessions := CarriedSessions(s, entries, preserve, now),
      next := if reset then 0 else Lowered(s.next, NewIndices(s, entries, preserveFailures)),
      lastPrune := now)
  }

  function NewIndices(s: Chain, entries: seq<Entry>, preserve: set<Entry>): set<nat> {
    set i | i in Reset(s, entries, preserve) :: IndexOf(entries, s.entries[i]).value
  }

  // ----- What every run keeps -----

  // Every entry before the cursor has a failure record.
  ghost predicate CursorCovered(s: Chain) {
    forall i :: 0 <= i < s.next ==> i in s.failed
  }

  ghost predicate Inv(s: Chain) {
    && Distinct(s.entries) && s.next <= |s.entries| && s.ttl >= SESSION_TTL
    && (forall i :: i in s.failed ==> i < |s.entries|)
    && (forall k :: k in s.sessions ==> s.sessions[k].index < |s.entries|)
    && CursorCovered(s)
  }

  lemma {:induction false} AdvancedIsCovered(next: nat, failed: map<nat, Failure>, n: nat)
    requires next <= n && forall i :: 0 <= i < next ==> i in failed
    ensures next <= Advanced(next, failed, n) <= n
    ensures forall i :: 0 <= i < Advanced(next, failed, n) ==> i in failed
    ensures Advanced(next, failed, n) < n ==> Advanced(next, failed, n) !in failed
    decreases n - next
  {
    if next < n && next in failed {
      AdvancedIsCovered(next + 1, failed, n);
    }
  }

  lemma RecordFailureKeepsInv(s: Chain, i: int, err: Option<CallError>, cancelled: bool, delivered: bool, retain: bool, now: Time, id: nat)
    requires Inv(s)
    ensures Inv(RecordFailure(s, i, err, cancelled, delivered, retain, now, id))
  {
    if FailureAdvances(err, cancelled, delivered) && 0 <= i < |s.entries| {
      AdvancedIsCovered(s.next, s.failed[i := Failure(id, now + RecoveryCooldown(err), false)], |s.entries|);
    }
  }

  lemma RestoreProviderKeepsInv(s: Chain, provider: string)
    requires Inv(s)
    ensures Inv(RestoreProvider(s, provider))
  {
    hide Lowered;
    LoweredIsLeast(s.next, OfProvider(s, provider));
  }

  lemma FinishRecoveryKeepsInv(s: Chain, i: nat, probe: Option<nat>, o: Outcome, now: Time)
    requires Inv(s)
    ensures Inv(FinishRecovery(s, i, probe, o, now))
  {
  }

  lemma {:induction false} FirstUsableIsFirst(s: Chain, from: nat, now: Time, available: Entry -> bool)
    ensures var i := FirstUsable(s, from, now, available);
            if i.Some? then from <= i.value && Usable(s, i.value, now, available)
                            && forall j :: from <= j < i.value ==> !Usable(s, j, now, available)
            else forall j :: from <= j < |s.entries| ==> !Usable(s, j, now, available)
    decreases |s.entries| - from
  {
    if from < |s.entries| && !Usable(s, from, now, available) {
      FirstUsableIsFirst(s, from + 1, now, available);
    }
  }

  lemma {:induction false} FirstRecoveredIsFirst(s: Chain, from: nat, now: Time, available: Entry -> bool)
    ensures var i := FirstRecovered(s, from, now, available);
            if i.Some? then from <= i.value < s.next && i.value in s.failed && Usable(s, i.value, now, available)
                            && forall j :: from <= j < i.value && j in s.failed ==> !Usable(s, j, now, available)
            else forall j :: from <= j < s.next && j in s.failed ==> !Usable(s, j, now, available)
    decreases |s.entries| - from
  {
    if from < s.next && from < |s.entries| && !(from in s.failed && Usable(s, from, now, available)) {
      FirstRecoveredIsFirst(s, from + 1, now, available);
    }
  }

  // With a covered cursor, starting at the cursor loses nothing: a new binding
  // goes to the first usable entry of the whole configured order.
  lemma NewBindingIsFirst(s: Chain, now: Time, available: Entry -> bool)
    requires CursorCovered(s)
    ensures var i := NewBinding(s, now, available);
            if i.Some? then Usable(s, i.value, now, available) && forall j :: 0 <= j < i.value ==> !Usable(s, j, now, available)
            else forall j :: 0 <= j < |s.entries| ==> !Usable(s, j, now, available)
  {
    hide FirstUsable, FirstRecovered, Usable;
    FirstRecoveredIsFirst(s, 0, now, available);
    var recovered := FirstRecovered(s, 0, now, available);
    FirstUsableIsFirst(s, if recovered.Some? then recovered.value else s.next, now, available);
  }

  // Whether it is bound already or new, a session gets a usable entry if there
  // is one; only a session that could not keep its entry is bound anew.
  lemma SelectIsFirstOrSticky(s: Chain, key: string, sticky: bool, now: Time, available: Entry -> bool)
    requires Inv(s)
    ensures var r := Select(s, key, sticky, now, available);
            && Inv(r.chain)
            && (sticky && Sticks(s, key, now, available) ==> r.index == Some(s.sessions[key].index))
            && (!(sticky && Sticks(s, key, now, available)) && r.index.Some? ==>
                  Usable(s, r.index.value, now, available) && forall j :: 0 <= j < r.index.value ==> !Usable(s, j, now, available))
            && (r.index.None? ==> forall j :: 0 <= j < |s.entries| ==> !Usable(s, j, now, available))
            && (sticky && s.entries != [] ==>
                  (key in r.chain.sessions <==> r.index.Some?)
                  && (r.index.Some? ==> r.chain.sessions[key] == Binding(r.index.value, now)))
            && r.chain.failed == s.failed && r.chain.next == s.next && r.chain.entries == s.entries
  {
    if s.entries != [] {
      hide NewBinding;
      if sticky {
        var u := Unbound(Pruned(s, now), key);
        NewBindingIsFirst(u, now, available);
        SameUsable(s, u, now, available);
        SameUsable(s, Pruned(s, now), now, available);
      } else {
        NewBindingIsFirst(s, now, available);
      }
    }
  }

  lemma SameUsable(s: Chain, t: Chain, now: Time, available: Entry -> bool)
    requires s.entries == t.entries && s.failed == t.failed
    ensures forall i :: Usable(s, i, now, available) == Usable(t, i, now, available)
  {
  }

  // ----- Probes -----

  // A failed entry admits one probe at a time: while it is out, no other is
  // granted, and a probe that was superseded settles nothing.
  lemma OneProbeAtATime(s: Chain, i: nat, now: Time, later: Time)
    ensures var b := BeginRecovery(s, i, now);
            b.probe.Some? ==> i in b.chain.failed && b.chain.failed[i].probing && !BeginRecovery(b.chain, i, later).allowed
  {
  }

  lemma SupersededProbeSettlesNothing(s: Chain, i: nat, now: Time, err: Option<CallError>, delivered: bool, retain: bool,
                                      at: Time, id: nat, o: Outcome, end: Time)
    requires i < |s.entries| && FailureAdvances(err, false, delivered)
    requires BeginRecovery(s, i, now).probe.Some? && id != BeginRecovery(s, i, now).probe.value
    ensures var b := BeginRecovery(s, i, now);
            var superseded := RecordFailure(b.chain, i, err, false, delivered, retain, at, id);
            FinishRecovery(superseded, i, b.probe, o, end) == superseded
  {
  }

  // ----- Reload -----

  lemma SameEntries(entries: seq<Entry>, i: nat)
    requires Distinct(entries) && i < |entries|
    ensures IndexOf(entries, entries[i]) == Some(i)
  {
    hide IndexOf;
    IndexOfFinds(entries, entries[i]);
  }

  lemma CoveredThroughReload(s: Chain, preserve: set<Entry>, ids: nat)
    requires Inv(s)
    ensures var next := Lowered(s.next, NewIndices(s, s.entries, preserve));
            next <= s.next && forall i :: 0 <= i < next ==> i in CarriedFailures(s, s.entries, preserve, ids)
  {
    hide Lowered, IndexOf;
    var entries := s.entries;
    var indices := NewIndices(s, entries, preserve);
    LoweredIsLeast(s.next, indices);
    forall i | 0 <= i < Lowered(s.next, indices) ensures FailureCarriedTo(s, entries, preserve, i) {
      SameEntries(entries, i);
      assert i in Reset(s, entries, preserve) ==> i in indices;
    }
  }

  // A reload keeps the invariant; without a new order it starts with the
  // entries it had.
  lemma ReloadKeepsInv(s: Chain, entries: seq<Entry>, idleTTL: nat, preserve: set<Entry>, preserveFailures: set<Entry>,
                       reset: bool, now: Time, ids: nat)
    requires Inv(s) && Distinct(entries) && (!reset ==> entries == s.entries)
    ensures Inv(Reconfigured(s, entries, idleTTL, preserve, preserveFailures, reset, now, ids))
  {
    hide Lowered, IndexOf;
    var t := Reconfigured(s, entries, idleTTL, preserve, preserveFailures, reset, now, ids);
    if !reset {
      CoveredThroughReload(s, preserveFailures, ids);
    }
    forall k | k in t.sessions ensures t.sessions[k].index < |entries| {
      IndexOfFinds(entries, s.entries[s.sessions[k].index]);
    }
  }

  // The sessions that survive a reload are exactly the live ones whose entry is
  // still configured and preserved; each keeps its provider, model and age.
  lemma ReloadKeepsSessions(s: Chain, entries: seq<Entry>, idleTTL: nat, preserve: set<Entry>, preserveFailures: set<Entry>,
                            reset: bool, now: Time, ids: nat, key: string)
    requires Inv(s)
    ensures var t := Reconfigured(s, entries, idleTTL, preserve, preserveFailures, reset, now, ids);
            && (key in t.sessions <==>
                  key in s.sessions && !Idle(s.sessions[key], now, s.ttl)
                  && s.entries[s.sessions[key].index] in entries && s.entries[s.sessions[key].index] in preserve)
            && (key in t.sessions ==>
                  && t.sessions[key].index < |t.entries|
                  && t.entries[t.sessions[key].index] == s.entries[s.sessions[key].index]
                  && t.sessions[key].lastTouch == s.sessions[key].lastTouch)
  {
    hide Lowered, IndexOf;
    if key in s.sessions {
      IndexOfFinds(entries, s.entries[s.sessions[key].index]);
    }
  }

  // The failures that survive are exactly those of preserved entries, with
  // their retry time and without their probe.
  lemma ReloadKeepsFailures(s: Chain, entries: seq<Entry>, idleTTL: nat, preserve: set<Entry>, preserveFailures: set<Entry>,
                            reset: bool, now: Time, ids: nat, i: nat)
    requires Inv(s) && Distinct(entries) && i < |s.entries|
    ensures var t := Reconfigured(s, entries, idleTTL, preserve, preserveFailures, reset, now, ids);
            forall j :: 0 <= j < |entries| && entries[j] == s.entries[i] ==>
              (j in t.failed <==> i in s.failed && s.entries[i] in preserveFailures)
              && (j in t.failed ==> t.failed[j].retryAt == s.failed[i].retryAt && !t.failed[j].probing)
  {
    hide Lowered, IndexOf;
    SameEntries(s.entries, i);
    forall j | 0 <= j < |entries| && entries[j] == s.entries[i] ensures IndexOf(entries, entries[j]) == Some(j) {
      SameEntries(entries, j);
    }
  }

  // ----- Runs -----

  datatype Action =
    | DoSelect(key: string, sticky: bool, now: Time, unavailable: set<Entry>)
    | DoTouch(key: string, now: Time)
    | DoFail(index: int, err: Option<CallError>, cancelled: bool, delivered: bool, retain: bool, now: Time, id: nat)
    | DoBegin(at: nat, now: Time)
    | DoFinish(at: nat, probe: Option<nat>, outcome: Outcome, now: Time)
    | DoRestore(provider: string)
    | DoReload(entries: seq<Entry>, idleTTL: nat, preserve: set<Entry>, preserveFailures: set<Entry>, reset: bool, now: Time, id: nat)

  // A reload is validated: no entry twice, and a new order is announced.
  ghost predicate Enabled(s: Chain, a: Action) {
    a.DoReload? ==> Distinct(a.entries) && (!a.reset ==> a.entries == s.entries)
  }

  function Apply(s: Chain, a: Action): Chain {
    match a
    case DoSelect(key, sticky, now, unavailable) => Select(s, key, sticky, now, e => e !in unavailable).chain
    case DoTouch(key, now) => Touch(s, key, now).chain
    case DoFail(i, err, cancelled, delivered, retain, now, id) => RecordFailure(s, i, err, cancelled, delivered, retain, now, id)
    case DoBegin(i, now) => BeginRecovery(s, i, now).chain
    case DoFinish(i, probe, outcome, now) => FinishRecovery(s, i, probe, outcome, now)
    case DoRestore(provider) => RestoreProvider(s, provider)
    case DoReload(entries, ttl, preserve, preserveFailures, reset, now, id) =>
      Reconfigured(s, entries, ttl, preserve, preserveFailures, reset, now, id)
  }

  ghost predicate Run(entries: seq<Entry>, idleTTL: nat, states: seq<Chain>, actions: seq<Action>) {
    && |states| == |actions| + 1 && states[0] == NewChain(entries, idleTTL) && Distinct(entries)
    && forall i :: 0 <= i < |actions| ==> Enabled(states[i], actions[i]) && states[i + 1] == Apply(states[i], actions[i])
  }

  lemma StepKeepsInv(s: Chain, a: Action)
    requires Inv(s) && Enabled(s, a)
    ensures Inv(Apply(s, a))
  {
    hide Select, RecordFailure, FinishRecovery, RestoreProvider, Reconfigured;
    match a
    case DoSelect(key, sticky, now, unavailable) => SelectIsFirstOrSticky(s, key, sticky, now, e => e !in unavailable);
    case DoTouch(key, now) =>
    case DoFail(i, err, cancelled, delivered, retain, now, id) => RecordFailureKeepsInv(s, i, err, cancelled, delivered, retain, now, id);
    case DoBegin(i, now) =>
    case DoFinish(i, probe, outcome, now) => FinishRecoveryKeepsInv(s, i, probe, outcome, now);
    case DoRestore(provider) => RestoreProviderKeepsInv(s, provider);
    case DoReload(entries, ttl, preserve, preserveFailures, reset, now, id) =>
      ReloadKeepsInv(s, entries, ttl, preserve, preserveFailures, reset, now, id);
  }

  // Main result: through every run of selections, failures, recoveries, restores
  // and reloads the cursor stays covered, so a new binding always goes to the
  // first usable entry of the configured order.
  lemma {:induction false} RunBindsFirstUsable(entries: seq<Entry>, idleTTL: nat, states: seq<Chain>, actions: seq<Action>, i: nat)
    requires Run(entries, idleTTL, states, actions) && i < |states|
    ensures Inv(states[i])
    ensures forall now: Time, available: Entry -> bool ::
              var b := NewBinding(states[i], now, available);
              (b.Some? ==> Usable(states[i], b.value, now, available))
              && forall j :: 0 <= j < |states[i].entries| && (b.Some? ==> j < b.value) ==> !Usable(states[i], j, now, available)
  {
    hide Apply, NewBinding;
    if i > 0 {
      RunBindsFirstUsable(entries, idleTTL, states, actions, i - 1);
      StepKeepsInv(states[i - 1], actions[i - 1]);
    }
    forall now: Time, available: Entry -> bool
      ensures var b := NewBinding(states[i], now, available);
              (b.Some? ==> Usable(states[i], b.value, now, available))
              && forall j :: 0 <= j < |states[i].entries| && (b.Some? ==> j < b.value) ==> !Usable(states[i], j, now, available)
    {
      NewBindingIsFirst(states[i], now, available);
    }
  }
}
