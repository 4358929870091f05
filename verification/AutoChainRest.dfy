// What a failure does to later bindings, and how long a session keeps its entry
// (internal/gateway/auto_chain.go:106-264 and route_recovery.go:30-80).
module AutoChainRest {
  import opened Basics
  import opened RecoveryBackoff
  import opened AutoChain

  // ----- Which errors move on -----

  predicate FailsOver(e: CallError) {
    e.category == "model_not_found" || e.category == "insufficient_balance" || e.category == "quota_exhausted"
    || e.category == "temporarily_unavailable"
  }

  // A failover-safe error of a request that was not cancelled is recorded if the
  // connection failed before anything was sent or delivered, or if its category
  // speaks against the entry. The record rests the entry for the cooldown.
  lemma FailureMeans(s: Chain, i: nat, err: Option<CallError>, cancelled: bool, delivered: bool, retain: bool, now: Time, id: nat)
    requires i < |s.entries|
    ensures var t := RecordFailure(s, i, err, cancelled, delivered, retain, now, id);
            var unsent := err.Some? && err.value.code == "upstream_transport_error" && err.value.notAttempted;
            var counts := err.Some? && err.value.failoverSafe && !cancelled && if unsent then !delivered else FailsOver(err.value);
            && t.entries == s.entries && t.ttl == s.ttl
            && (!counts ==> t == s)
            && (counts ==>
                  && i in t.failed && t.failed[i].id == id && !t.failed[i].probing
                  && t.failed[i].retryAt >= now + ROUTE_COOLDOWN && t.failed[i].retryAt >= now + err.value.cooldown
                  && (err.value.category == "insufficient_balance" ==> t.failed[i].retryAt >= now + BILLING_COOLDOWN)
                  && (t.failed[i].retryAt == now + ROUTE_COOLDOWN || t.failed[i].retryAt == now + BILLING_COOLDOWN
                      || t.failed[i].retryAt == now + err.value.cooldown)
                  && (forall j :: j != i ==> (j in t.failed <==> j in s.failed) && (j in t.failed ==> t.failed[j] == s.failed[j]))
                  && (forall k :: k in t.sessions <==> k in s.sessions && (retain || s.sessions[k].index != i))
                  && (forall k :: k in t.sessions ==> t.sessions[k] == s.sessions[k]))
  {
    hide Advanced;
  }

  // ----- The rest over runs -----

  ghost predicate Rests(s: Chain, entries: seq<Entry>, i: nat, until: Time) {
    && s.entries == entries && i < |entries| && i in s.failed && s.failed[i].retryAt >= until
  }

  // Steps that leave the record in place: no reload, no restore of its provider,
  // no confirmed recovery of the entry, and no news of it from before `since`.
  predicate Spares(a: Action, entries: seq<Entry>, i: nat, since: Time)
    requires i < |entries|
  {
    match a
    case DoReload(_, _, _, _, _, _, _) => false
    case DoRestore(provider) => provider != entries[i].provider
    case DoFinish(at, _, outcome, now) => at == i ==> !Confirms(outcome) && since <= now
    case DoFail(index, _, _, _, _, now, _) => index == i ==> since <= now
    case _ => true
  }

  lemma SparedStep(s: Chain, a: Action, entries: seq<Entry>, i: nat, since: Time)
    requires Rests(s, entries, i, since + ROUTE_COOLDOWN) && Spares(a, entries, i, since)
    ensures Rests(Apply(s, a), entries, i, since + ROUTE_COOLDOWN)
  {
    hide Advanced, Lowered, NewBinding, PrunedSessions, Sticks;
    match a
    case DoFail(index, err, cancelled, delivered, retain, now, id) =>
      if 0 <= index < |s.entries| { FailureMeans(s, index, err, cancelled, delivered, retain, now, id); }
    case _ =>
  }

  lemma {:induction false} RestIsKept(entries: seq<Entry>, states: seq<Chain>, actions: seq<Action>, n: nat, m: nat, i: nat, since: Time)
    requires |states| == |actions| + 1 && n <= m < |states|
    requires forall k :: n <= k < m ==> states[k + 1] == Apply(states[k], actions[k])
    requires Rests(states[n], entries, i, since + ROUTE_COOLDOWN)
    requires forall k :: n <= k < m ==> Spares(actions[k], entries, i, since)
    ensures Rests(states[m], entries, i, since + ROUTE_COOLDOWN)
  {
    hide Apply, Rests, Spares;
    if n < m {
      RestIsKept(entries, states, actions, n, m - 1, i, since);
      SparedStep(states[m - 1], actions[m - 1], entries, i, since);
    }
  }

  // Nobody, bound to it or not, is given an entry while it rests.
  lemma RestingIsNotChosen(s: Chain, entries: seq<Entry>, i: nat, until: Time, key: string, sticky: bool, now: Time, available: Entry -> bool)
    requires Rests(s, entries, i, until) && now < until
    ensures Select(s, key, sticky, now, available).index != Some(i)
    ensures !BeginRecovery(s, i, now).allowed
  {
    var p := if sticky then Pruned(s, now) else s;
    var u := Unbound(p, key);
    FirstUsableIsFirst(s, if FirstRecovered(s, 0, now, available).Some? then FirstRecovered(s, 0, now, available).value else s.next, now, available);
    FirstUsableIsFirst(u, if FirstRecovered(u, 0, now, available).Some? then FirstRecovered(u, 0, now, available).value else u.next, now, available);
    hide FirstUsable, FirstRecovered, PrunedSessions;
  }

  // Main result: after a failure that counts, at T, no selection before T plus
  // the cooldown gives out that entry, whatever happens in between, unless its
  // provider is restored, its recovery confirmed, or the chain reloaded.
  lemma FailedEntryRests(entries: seq<Entry>, idleTTL: nat, states: seq<Chain>, actions: seq<Action>, n: nat, m: nat, i: nat,
                         err: CallError, delivered: bool, retain: bool, since: Time, id: nat, key: string, sticky: bool, now: Time,
                         available: Entry -> bool)
    requires Run(entries, idleTTL, states, actions) && n < m < |states| && i < |states[n].entries|
    requires actions[n] == DoFail(i, Some(err), false, delivered, retain, since, id)
    requires err.failoverSafe && FailsOver(err) && !err.notAttempted
    requires forall k :: n < k < m ==> Spares(actions[k], states[n].entries, i, since)
    requires now < since + ROUTE_COOLDOWN
    ensures Select(states[m], key, sticky, now, available).index != Some(i) && !BeginRecovery(states[m], i, now).allowed
  {
    FailureMeans(states[n], i, Some(err), false, delivered, retain, since, id);
    assert states[n + 1] == Apply(states[n], actions[n]);
    hide Apply, RecordFailure, Select, BeginRecovery, Spares;
    RestIsKept(states[n].entries, states, actions, n + 1, m, i, since);
    RestingIsNotChosen(states[m], states[n].entries, i, since + ROUTE_COOLDOWN, key, sticky, now, available);
  }

  // ----- Probes -----

  // A failed entry is probed when it is due and no probe is out.
  lemma BeginMeans(s: Chain, i: nat, now: Time)
    ensures var b := BeginRecovery(s, i, now);
            && (b.allowed <==> i !in s.failed || (!s.failed[i].probing && s.failed[i].retryAt <= now))
            && (b.probe.Some? <==> b.allowed && i in s.failed)
            && (b.probe.Some? ==> b.probe.value == s.failed[i].id && b.chain.failed[i] == s.failed[i].(probing := true))
            && (b.probe.None? ==> b.chain == s)
  {
  }

  // How a probe ends: confirmed it frees the entry and new bindings see it;
  // undecided it is given back as it was; failed it rests again.
  lemma FinishMeans(s: Chain, i: nat, o: Outcome, now: Time)
    requires i in s.failed
    ensures var t := FinishRecovery(s, i, Some(s.failed[i].id), o, now);
            var undecided := o.handled || o.cancelled || (o.failed && o.err.Some? && o.err.value.notAttempted);
            && t.entries == s.entries && t.sessions == s.sessions
            && (!undecided && !o.failed ==> i !in t.failed && t.next <= i && t.next <= s.next && (t.next == i || t.next == s.next))
            && (undecided ==> t == s.(failed := s.failed[i := s.failed[i].(probing := false)]))
            && (!undecided && o.failed ==>
                  i in t.failed && !t.failed[i].probing && t.failed[i].id == s.failed[i].id
                  && t.failed[i].retryAt >= now + ROUTE_COOLDOWN && t.next == s.next
                  && (o.err.Some? ==> t.failed[i].retryAt >= now + o.err.value.cooldown))
  {
  }

  // ----- Sessions -----

  // A session keeps the entry it was given for as long as the entry is usable
  // and the session is used once a day at least.
  lemma SessionKeepsEntry(s: Chain, key: string, now: Time, later: Time, available: Entry -> bool, laterAvailable: Entry -> bool)
    requires Inv(s) && Select(s, key, true, now, available).index.Some?
    requires var t := Select(s, key, true, now, available);
             now <= later < now + DAY && Usable(t.chain, t.index.value, later, laterAvailable)
    ensures var t := Select(s, key, true, now, available);
            Select(t.chain, key, true, later, laterAvailable).index == t.index
  {
    hide NewBinding, FirstUsable;
  }

  // Once a minute the sessions that were idle for the whole lifetime are dropped.
  lemma PruneMeans(s: Chain, now: Time, key: string)
    ensures var p := Pruned(s, now);
            var due := s.lastPrune == 0 || now >= s.lastPrune + 60_000_000_000;
            && (key in p.sessions <==> key in s.sessions && (due ==> now < s.sessions[key].lastTouch + s.ttl))
            && (key in p.sessions ==> p.sessions[key] == s.sessions[key])
            && p == s.(sessions := p.sessions, lastPrune := if due then now else s.lastPrune)
  {
  }

  // A reload drops them too, so the next minute needs no sweep.
  lemma ReloadPrunes(s: Chain, entries: seq<Entry>, idleTTL: nat, preserve: set<Entry>, preserveFailures: set<Entry>, reset: bool,
                     now: Time, later: Time, ids: nat)
    requires 0 < now <= later < now + 60_000_000_000
    ensures var t := Reconfigured(s, entries, idleTTL, preserve, preserveFailures, reset, now, ids);
            && Pruned(t, later) == t
            && forall key :: key in t.sessions ==> key in s.sessions && now < s.sessions[key].lastTouch + s.ttl
  {
    hide NewIndices, CarriedFailures, Lowered;
  }

  // One that was idle for its whole lifetime is bound anew.
  lemma IdleSessionIsNew(s: Chain, key: string, now: Time, available: Entry -> bool)
    requires s.entries != [] && key in s.sessions && now >= s.sessions[key].lastTouch + s.ttl
    ensures Select(s, key, true, now, available).index == NewBinding(s, now, available)
    ensures Touch(s, key, now).index.None?
  {
    SameForBinding(s, Unbound(Pruned(s, now), key), 0, now, available);
    var recovered := FirstRecovered(s, 0, now, available);
    SameForUsable(s, Unbound(Pruned(s, now), key), if recovered.Some? then recovered.value else s.next, now, available);
    hide FirstUsable, FirstRecovered;
  }

  lemma {:induction false} SameForBinding(s: Chain, t: Chain, from: nat, now: Time, available: Entry -> bool)
    requires t.entries == s.entries && t.failed == s.failed && t.next == s.next
    ensures FirstRecovered(t, from, now, available) == FirstRecovered(s, from, now, available)
    decreases |s.entries| - from
  {
    if from < s.next && from < |s.entries| { SameForBinding(s, t, from + 1, now, available); }
  }

  lemma {:induction false} SameForUsable(s: Chain, t: Chain, from: nat, now: Time, available: Entry -> bool)
    requires t.entries == s.entries && t.failed == s.failed
    ensures FirstUsable(t, from, now, available) == FirstUsable(s, from, now, available)
    decreases |s.entries| - from
  {
    if from < |s.entries| { SameForUsable(s, t, from + 1, now, available); }
  }

  // A lifetime is at least a day, and what was asked for.
  lemma LifetimeMeans(entries: seq<Entry>, idleTTL: nat)
    ensures NewChain(entries, idleTTL).ttl >= DAY && NewChain(entries, idleTTL).ttl >= idleTTL
    ensures NewChain(entries, idleTTL).ttl == DAY || NewChain(entries, idleTTL).ttl == idleTTL
  {
  }

  // A restore forgets exactly the failures of one provider, and new bindings see
  // its entries again.
  lemma RestoreMeans(s: Chain, provider: string, i: nat)
    requires i < |s.entries|
    ensures var t := RestoreProvider(s, provider);
            && t.entries == s.entries && t.sessions == s.sessions
            && (i in t.failed <==> i in s.failed && s.entries[i].provider != provider)
            && (i in t.failed ==> t.failed[i] == s.failed[i])
            && t.next <= s.next && (i in s.failed && s.entries[i].provider == provider ==> t.next <= i)
  {
    LoweredIsLeast(s.next, OfProvider(s, provider));
    hide Lowered;
  }
}
