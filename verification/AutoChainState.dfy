// The auto-chain object (internal/gateway/auto_chain.go, route_recovery.go) and
// the reload that replaces it (routing_reload.go). Each locked method is shown
// to be the step of the same name in module AutoChain.
module AutoChainState {
  import opened Basics
  import opened RecoveryBackoff
  import opened AutoChain

  // ----- Loops over maps: what is done when some keys are left -----

  ghost predicate PartlyPruned(sessions: map<string, Binding>, current: map<string, Binding>, left: set<string>, now: Time, ttl: nat) {
    && current.Keys == (set k | k in sessions && (k in left || !Idle(sessions[k], now, ttl)))
    && forall k :: k in current && k in sessions ==> current[k] == sessions[k]
  }

  ghost predicate PartlyKept(sessions: map<string, Binding>, current: map<string, Binding>, left: set<string>, i: nat) {
    && current.Keys == (set k | k in sessions && (k in left || sessions[k].index != i))
    && forall k :: k in current && k in sessions ==> current[k] == sessions[k]
  }

  ghost predicate IndexMap(entries: seq<Entry>, n: nat, indices: map<Entry, nat>)
    requires n <= |entries|
  {
    forall e :: (e in indices <==> IndexOf(entries[..n], e).Some?) && (e in indices ==> IndexOf(entries[..n], e) == Some(indices[e]))
  }

  lemma IndexMapStep(entries: seq<Entry>, n: nat, indices: map<Entry, nat>)
    requires n < |entries| && IndexMap(entries, n, indices)
    ensures IndexMap(entries, n + 1, indices[entries[n] := n])
  {
    assert entries[..n + 1][..n] == entries[..n];
  }

  // The old failures whose turn has come.
  ghost predicate PartlyCarried(s: Chain, entries: seq<Entry>, preserve: set<Entry>, ids: nat, left: set<nat>, current: map<nat, Failure>) {
    && (forall j: nat :: j in current <==>
          FailureCarriedTo(s, entries, preserve, j) && IndexOf(s.entries, entries[j]).value !in left)
    && (forall j: nat :: j in current && FailureCarriedTo(s, entries, preserve, j) ==>
          current[j] == Failure(ids + j, s.failed[IndexOf(s.entries, entries[j]).value].retryAt, false))
  }

  lemma CarryStart(s: Chain, entries: seq<Entry>, preserve: set<Entry>, ids: nat)
    ensures PartlyCarried(s, entries, preserve, ids, s.failed.Keys, map[])
  {
  }

  lemma CarryStep(s: Chain, entries: seq<Entry>, preserve: set<Entry>, ids: nat, left: set<nat>, current: map<nat, Failure>, i: nat)
    requires Inv(s) && Distinct(entries) && i in left && i in s.failed
    requires PartlyCarried(s, entries, preserve, ids, left, current)
    ensures var e := s.entries[i];
            var j := IndexOf(entries, e);
            PartlyCarried(s, entries, preserve, ids, left - {i},
              if j.Some? && e in preserve then current[j.value := Failure(ids + j.value, s.failed[i].retryAt, false)] else current)
  {
    hide IndexOf;
    var e := s.entries[i];
    IndexOfFinds(entries, e);
    SameEntries(s.entries, i);
    forall j: nat | j < |entries|
      ensures IndexOf(entries, entries[j]) == Some(j)
      ensures IndexOf(s.entries, entries[j]) == Some(i) ==> entries[j] == e
    {
      SameEntries(entries, j);
      IndexOfFinds(s.entries, entries[j]);
    }
  }

  lemma CarryDone(s: Chain, entries: seq<Entry>, preserve: set<Entry>, ids: nat, current: map<nat, Failure>)
    requires PartlyCarried(s, entries, preserve, ids, {}, current)
    ensures current == CarriedFailures(s, entries, preserve, ids)
  {
    hide IndexOf;
    var done := CarriedFailures(s, entries, preserve, ids);
    forall j: nat ensures j in current <==> j in done {}
  }

  ghost predicate PartlyBound(s: Chain, entries: seq<Entry>, preserve: set<Entry>, now: Time, left: set<string>, current: map<string, Binding>) {
    && current.Keys == set k | k in s.sessions && k !in left && SessionCarried(s, entries, preserve, k, now)
    && forall k :: k in current ==>
         k in CarriedSessions(s, entries, preserve, now) && current[k] == CarriedSessions(s, entries, preserve, now)[k]
  }

  lemma BoundStart(s: Chain, entries: seq<Entry>, preserve: set<Entry>, now: Time)
    ensures PartlyBound(s, entries, preserve, now, s.sessions.Keys, map[])
  {
  }

  lemma BoundStep(s: Chain, entries: seq<Entry>, preserve: set<Entry>, now: Time, left: set<string>, current: map<string, Binding>,
                  key: string)
    requires key in left && key in s.sessions && PartlyBound(s, entries, preserve, now, left, current)
    ensures var carried := SessionCarried(s, entries, preserve, key, now);
            PartlyBound(s, entries, preserve, now, left - {key},
              if carried then current[key := CarriedSessions(s, entries, preserve, now)[key]] else current)
  {
    hide SessionCarried;
  }

  lemma BoundDone(s: Chain, entries: seq<Entry>, preserve: set<Entry>, now: Time, current: map<string, Binding>)
    requires PartlyBound(s, entries, preserve, now, {}, current)
    ensures current == CarriedSessions(s, entries, preserve, now)
  {
    hide SessionCarried;
  }

  // The guard of the loop and the value it stores.
  lemma CarriedValue(s: Chain, entries: seq<Entry>, preserve: set<Entry>, now: Time, key: string)
    requires key in s.sessions
    ensures var b := s.sessions[key];
            && (SessionCarried(s, entries, preserve, key, now)
                <==> now - b.lastTouch < s.ttl && b.index < |s.entries| && IndexOf(entries, s.entries[b.index]).Some?
                     && s.entries[b.index] in preserve)
            && (SessionCarried(s, entries, preserve, key, now) ==>
                  CarriedSessions(s, entries, preserve, now)[key] == b.(index := IndexOf(entries, s.entries[b.index]).value))
  {
    hide IndexOf;
  }

  ghost function LoweringIndices(s: Chain, entries: seq<Entry>, preserve: set<Entry>, left: set<nat>): set<nat> {
    set i | i in Reset(s, entries, preserve) - left :: IndexOf(entries, s.entries[i]).value
  }

  lemma LoweringStart(s: Chain, entries: seq<Entry>, preserve: set<Entry>, next: nat)
    ensures Lowered(next, LoweringIndices(s, entries, preserve, s.failed.Keys)) == next
  {
    assert LoweringIndices(s, entries, preserve, s.failed.Keys) == {};
    LoweredIsLeast(next, {});
  }

  lemma LoweringStep(s: Chain, entries: seq<Entry>, preserve: set<Entry>, left: set<nat>, next: nat, i: nat)
    requires Inv(s) && i in left && i in s.failed && left <= s.failed.Keys
    ensures var e := s.entries[i];
            var j := IndexOf(entries, e);
            Lowered(next, LoweringIndices(s, entries, preserve, left - {i}))
            == if j.Some? && e !in preserve then Min(Lowered(next, LoweringIndices(s, entries, preserve, left)), j.value)
               else Lowered(next, LoweringIndices(s, entries, preserve, left))
  {
    hide IndexOf, Lowered;
    var j := IndexOf(entries, s.entries[i]);
    var before, after := LoweringIndices(s, entries, preserve, left), LoweringIndices(s, entries, preserve, left - {i});
    if j.Some? && s.entries[i] !in preserve {
      assert i in Reset(s, entries, preserve);
      assert Reset(s, entries, preserve) - (left - {i}) == (Reset(s, entries, preserve) - left) + {i};
      assert after == before + {j.value};
      LoweredBy(next, before, j.value);
    } else {
      assert Reset(s, entries, preserve) - (left - {i}) == Reset(s, entries, preserve) - left;
    }
  }

  lemma LoweringDone(s: Chain, entries: seq<Entry>, preserve: set<Entry>)
    ensures LoweringIndices(s, entries, preserve, {}) == NewIndices(s, entries, preserve)
  {
    assert Reset(s, entries, preserve) - {} == Reset(s, entries, preserve);
  }

  lemma FailedInRange(s: Chain, provider: string)
    requires Inv(s)
    ensures forall i :: i in s.failed ==> i < |s.entries|
    ensures forall i :: i in s.failed ==> (i in OfProvider(s, provider) <==> s.entries[i].provider == provider)
    ensures OfProvider(s, provider) <= s.failed.Keys
  {
  }

  lemma RestoreStart(failed: map<nat, Failure>, healed: set<nat>, next: nat)
    requires healed <= failed.Keys
    ensures failed == failed - (healed - failed.Keys) && next == Lowered(next, healed - failed.Keys)
  {
    assert healed - failed.Keys == {};
    LoweredIsLeast(next, {});
  }

  lemma RestoreStep(failed: map<nat, Failure>, healed: set<nat>, left: set<nat>, next: nat, i: nat)
    requires i in left
    ensures i in healed ==>
              failed - (healed - (left - {i})) == (failed - (healed - left)) - {i}
              && Lowered(next, healed - (left - {i})) == Min(Lowered(next, healed - left), i)
    ensures i !in healed ==> healed - (left - {i}) == healed - left
  {
    hide Lowered;
    if i in healed {
      assert healed - (left - {i}) == (healed - left) + {i};
      LoweredBy(next, healed - left, i);
    } else {
      assert healed - (left - {i}) == healed - left;
    }
  }

  class AutoChainState {
    var entries: seq<Entry>
    var next: nat
    var ttl: nat
    var lastPrune: Time
    var sessions: map<string, Binding>
    var failed: map<nat, Failure>

    ghost function View(): Chain
      reads this
    {
      Chain(entries, next, ttl, lastPrune, sessions, failed)
    }

    ghost predicate Valid()
      reads this
    {
      Inv(View())
    }

    predicate CanServe(i: nat, now: Time, available: Entry -> bool)
      reads this
      ensures CanServe(i, now, available) == Usable(View(), i, now, available)
    {
      i < |entries| && (i !in failed || EligibleFailure(failed[i], now)) && available(entries[i])
    }

    constructor (entries: seq<Entry>, idleTTL: nat)
      requires Distinct(entries)
      ensures Valid() && View() == NewChain(entries, idleTTL)
    {
      this.entries, next, lastPrune := entries, 0, 0;
      ttl := if idleTTL < SESSION_TTL then SESSION_TTL else idleTTL;
      sessions, failed := map[], map[];
    }

    method PruneSessions(now: Time)
      modifies this`sessions, this`lastPrune
      ensures View() == Pruned(old(View()), now)
    {
      if lastPrune == 0 || now - lastPrune >= MINUTE {
        ghost var was := sessions;
        var left := sessions.Keys;
        while left != {}
          invariant left <= was.Keys && PartlyPruned(was, sessions, left, now, ttl) && lastPrune == old(lastPrune)
          decreases |left|
        {
          var id :| id in left;
          if now - sessions[id].lastTouch >= ttl {
            sessions := sessions - {id};
          }
          left := left - {id};
        }
        assert sessions == PrunedSessions(was, now, ttl);
        lastPrune := now;
      }
    }

    // A bound session keeps its entry while it is usable; a new binding goes to
    // the first usable entry of the configured order.
    method SelectForSession(key: string, sticky: bool, now: Time, available: Entry -> bool) returns (index: Option<nat>)
      requires Valid()
      modifies this`sessions, this`lastPrune
      ensures Valid() && Selection(View(), index) == Select(old(View()), key, sticky, now, available)
      ensures !(sticky && Sticks(old(View()), key, now, available)) ==>
                if index.Some? then Usable(old(View()), index.value, now, available)
                                    && forall j :: 0 <= j < index.value ==> !Usable(old(View()), j, now, available)
                else forall j :: 0 <= j < |entries| ==> !Usable(old(View()), j, now, available)
    {
      hide Inv, NewBinding, PrunedSessions, Pruned;
      SelectIsFirstOrSticky(View(), key, sticky, now, available);
      if |entries| == 0 {
        return None;
      }
      if sticky {
        PruneSessions(now);
        PrunedKeepsRest(old(View()), now);
        if key in sessions && now - sessions[key].lastTouch < ttl && CanServe(sessions[key].index, now, available) {
          index := Some(sessions[key].index);
          sessions := sessions[key := Binding(sessions[key].index, now)];
          return;
        }
        sessions := sessions - {key};
      }
      index := ScanEntries(now, available);
      if sticky && index.Some? {
        sessions := sessions[key := Binding(index.value, now)];
      }
    }

    method BoundRoute(key: string, now: Time) returns (index: Option<nat>)
      requires Valid()
      modifies this`sessions
      ensures Valid() && Selection(View(), index) == Touch(old(View()), key, now)
    {
      if key !in sessions || now - sessions[key].lastTouch >= ttl || sessions[key].index >= |entries| {
        return None;
      }
      index := Some(sessions[key].index);
      sessions := sessions[key := Binding(sessions[key].index, now)];
    }

    method ScanEntries(now: Time, available: Entry -> bool) returns (index: Option<nat>)
      ensures index == NewBinding(View(), now, available)
    {
      var at := next;
      var earlier := 0;
      while earlier < next && earlier < |entries|
        invariant FirstRecovered(View(), earlier, now, available) == FirstRecovered(View(), 0, now, available)
        invariant at == next
      {
        if earlier in failed && CanServe(earlier, now, available) {
          at := earlier;
          break;
        }
        earlier := earlier + 1;
      }
      ghost var start := at;
      while at < |entries| && !CanServe(at, now, available)
        invariant FirstUsable(View(), at, now, available) == FirstUsable(View(), start, now, available)
        decreases |entries| - at
      {
        at := at + 1;
      }
      index := if at >= |entries| then None else Some(at);
    }

    method DropSessions(i: nat)
      modifies this`sessions
      ensures sessions == KeptSessions(old(sessions), i)
    {
      ghost var was := sessions;
      var left := sessions.Keys;
      while left != {}
        invariant left <= was.Keys && PartlyKept(was, sessions, left, i)
        decreases |left|
      {
        var key :| key in left;
        if sessions[key].index == i {
          sessions := sessions - {key};
        }
        left := left - {key};
      }
      assert sessions == KeptSessions(was, i);
    }

    method RecordFailed(i: int, err: Option<CallError>, cancelled: bool, delivered: bool, retain: bool, now: Time, id: nat)
      requires Valid()
      modifies this`failed, this`sessions, this`next
      ensures Valid() && View() == RecordFailure(old(View()), i, err, cancelled, delivered, retain, now, id)
    {
      hide Inv, KeptSessions;
      RecordFailureKeepsInv(View(), i, err, cancelled, delivered, retain, now, id);
      if !FailureAdvances(err, cancelled, delivered) || i < 0 || i >= |entries| {
        return;
      }
      failed := failed[i := Failure(id, now + RecoveryCooldown(err), false)];
      if !retain {
        DropSessions(i);
      }
      ghost var marked, kept := failed, sessions;
      while next < |entries| && next in failed
        invariant failed == marked && sessions == kept
        invariant Advanced(next, failed, |entries|) == Advanced(old(next), failed, |entries|)
        decreases |entries| - next
      {
        next := next + 1;
      }
    }

    method BeginProbe(i: nat, now: Time) returns (probe: Option<nat>, allowed: bool)
      requires Valid()
      modifies this`failed
      ensures Valid() && Probe(View(), probe, allowed) == BeginRecovery(old(View()), i, now)
    {
      if i !in failed {
        return None, true;
      }
      if !EligibleFailure(failed[i], now) {
        return None, false;
      }
      failed := failed[i := failed[i].(probing := true)];
      return Some(failed[i].id), true;
    }

    method FinishProbe(i: nat, probe: Option<nat>, o: Outcome, now: Time)
      requires Valid()
      modifies this`failed, this`next
      ensures Valid() && View() == FinishRecovery(old(View()), i, probe, o, now)
    {
      hide Inv;
      FinishRecoveryKeepsInv(View(), i, probe, o, now);
      if probe.None? || i !in failed || failed[i].id != probe.value {
        return;
      }
      failed := failed[i := Completed(failed[i], o, now)];
      if Confirms(o) {
        failed := failed - {i};
        assert failed == old(failed) - {i};
        if i < next {
          next := i;
        }
      }
    }

    method Restore(provider: string)
      requires Valid()
      modifies this`failed, this`next
      ensures Valid() && View() == RestoreProvider(old(View()), provider)
    {
      hide Inv, Lowered, OfProvider;
      RestoreProviderKeepsInv(View(), provider);
      ghost var healed := OfProvider(View(), provider);
      FailedInRange(View(), provider);
      DropHealed(provider, healed);
    }

    method DropHealed(provider: string, ghost healed: set<nat>)
      requires forall i :: i in failed ==> i < |entries| && (i in healed <==> entries[i].provider == provider)
      requires healed <= failed.Keys
      modifies this`failed, this`next
      ensures failed == old(failed) - healed && next == Lowered(old(next), healed)
    {
      hide Lowered;
      ghost var was, start := failed, next;
      var left := failed.Keys;
      RestoreStart(was, healed, start);
      while left != {}
        invariant left <= was.Keys && failed == was - (healed - left) && next == Lowered(start, healed - left)
        decreases |left|
      {
        var i :| i in left;
        RestoreStep(was, healed, left, start, i);
        if entries[i].provider == provider {
          failed := failed - {i};
          if i < next {
            next := i;
          }
        }
        left := left - {i};
      }
      assert healed - left == healed;
    }

    method CarryFailures(newEntries: seq<Entry>, indices: map<Entry, nat>, preserve: set<Entry>, ids: nat)
      returns (carried: map<nat, Failure>)
      requires Valid() && Distinct(newEntries) && IndexMap(newEntries, |newEntries|, indices)
      ensures carried == CarriedFailures(View(), newEntries, preserve, ids)
    {
      hide IndexOf, PartlyCarried, CarriedFailures;
      IndexMapAll(newEntries, indices);
      carried := map[];
      CarryStart(View(), newEntries, preserve, ids);
      var left := failed.Keys;
      while left != {}
        invariant left <= failed.Keys && PartlyCarried(View(), newEntries, preserve, ids, left, carried)
        decreases |left|
      {
        var i :| i in left;
        CarryStep(View(), newEntries, preserve, ids, left, carried, i);
        if entries[i] in indices && entries[i] in preserve {
          var j := indices[entries[i]];
          carried := carried[j := Failure(ids + j, failed[i].retryAt, false)];
        }
        left := left - {i};
      }
      CarryDone(View(), newEntries, preserve, ids, carried);
    }

    method CarrySessions(newEntries: seq<Entry>, indices: map<Entry, nat>, preserve: set<Entry>, now: Time)
      returns (carried: map<string, Binding>)
      requires Valid() && IndexMap(newEntries, |newEntries|, indices)
      ensures carried == CarriedSessions(View(), newEntries, preserve, now)
    {
      hide IndexOf, PartlyBound, SessionCarried, CarriedSessions, Inv;
      IndexMapAll(newEntries, indices);
      carried := map[];
      var left := sessions.Keys;
      BoundStart(View(), newEntries, preserve, now);
      while left != {}
        invariant left <= sessions.Keys && PartlyBound(View(), newEntries, preserve, now, left, carried)
        decreases |left|
      {
        var key :| key in left;
        var binding := sessions[key];
        BoundStep(View(), newEntries, preserve, now, left, carried, key);
        CarriedValue(View(), newEntries, preserve, now, key);
        if now - binding.lastTouch < ttl && binding.index < |entries| && entries[binding.index] in indices
           && entries[binding.index] in preserve {
          carried := carried[key := binding.(index := indices[entries[binding.index]])];
        }
        left := left - {key};
      }
      BoundDone(View(), newEntries, preserve, now, carried);
    }

    method LowerCursor(newEntries: seq<Entry>, indices: map<Entry, nat>, preserve: set<Entry>) returns (cursor: nat)
      requires Valid() && IndexMap(newEntries, |newEntries|, indices)
      ensures cursor == Lowered(next, NewIndices(View(), newEntries, preserve))
    {
      hide IndexOf, Lowered, LoweringIndices, NewIndices;
      IndexMapAll(newEntries, indices);
      cursor := next;
      LoweringStart(View(), newEntries, preserve, next);
      var left := failed.Keys;
      while left != {}
        invariant left <= failed.Keys && cursor == Lowered(next, LoweringIndices(View(), newEntries, preserve, left))
        decreases |left|
      {
        var i :| i in left;
        LoweringStep(View(), newEntries, preserve, left, next, i);
        if entries[i] in indices && entries[i] !in preserve && indices[entries[i]] < cursor {
          cursor := indices[entries[i]];
        }
        left := left - {i};
      }
      LoweringDone(View(), newEntries, preserve);
    }

    // The successor of this state under a new configuration; the state itself is
    // left to the requests that still hold it.
    method ReconfiguredWithFailures(newEntries: seq<Entry>, idleTTL: nat, preserve: set<Entry>, preserveFailures: set<Entry>,
                                    reset: bool, now: Time, ids: nat) returns (successor: AutoChainState)
      requires Valid() && Distinct(newEntries) && (!reset ==> newEntries == entries)
      ensures fresh(successor) && successor.Valid() && View() == old(View())
      ensures successor.View() == Reconfigured(View(), newEntries, idleTTL, preserve, preserveFailures, reset, now, ids)
    {
      hide Inv, CarriedFailures, CarriedSessions, Lowered, NewIndices, IndexMap, IndexOf;
      ReloadKeepsInv(View(), newEntries, idleTTL, preserve, preserveFailures, reset, now, ids);
      successor := new AutoChainState(newEntries, idleTTL);
      var indices := BuildIndices(newEntries);
      var carried := CarryFailures(newEntries, indices, preserveFailures, ids);
      var bound := CarrySessions(newEntries, indices, preserve, now);
      var cursor := LowerCursor(newEntries, indices, preserveFailures);
      successor.failed, successor.sessions, successor.lastPrune := carried, bound, now;
      if !reset {
        successor.next := cursor;
      }
    }
  }

  method BuildIndices(entries: seq<Entry>) returns (indices: map<Entry, nat>)
    ensures IndexMap(entries, |entries|, indices)
  {
    indices := map[];
    var index := 0;
    while index < |entries|
      invariant 0 <= index <= |entries| && IndexMap(entries, index, indices)
    {
      IndexMapStep(entries, index, indices);
      indices := indices[entries[index] := index];
      index := index + 1;
    }
  }

  lemma IndexMapAll(entries: seq<Entry>, indices: map<Entry, nat>)
    requires IndexMap(entries, |entries|, indices)
    ensures forall e :: (e in indices <==> IndexOf(entries, e).Some?) && (e in indices ==> IndexOf(entries, e) == Some(indices[e]))
  {
    assert entries[..|entries|] == entries;
  }

  lemma PrunedKeepsRest(s: Chain, now: Time)
    ensures var p := Pruned(s, now); p.entries == s.entries && p.failed == s.failed && p.next == s.next && p.ttl == s.ttl
  {
  }

  // ----- Publishing a view: what a reload preserves -----

  // Sessions stay with an entry that is in scope on a present provider; its
  // failure is remembered only over a connection that was reused.
  method PreservationSets(chain: seq<Entry>, inScope: Entry -> bool, present: string -> bool, reused: string -> bool)
    returns (preserve: set<Entry>, preserveFailures: set<Entry>)
    ensures forall e :: e in preserve <==> e in chain && inScope(e) && present(e.provider)
    ensures forall e :: e in preserveFailures <==> e in chain && inScope(e) && reused(e.provider)
  {
    preserve, preserveFailures := {}, {};
    var k := 0;
    while k < |chain|
      invariant 0 <= k <= |chain|
      invariant forall e :: e in preserve <==> e in chain[..k] && inScope(e) && present(e.provider)
      invariant forall e :: e in preserveFailures <==> e in chain[..k] && inScope(e) && reused(e.provider)
    {
      assert chain[..k + 1] == chain[..k] + [chain[k]];
      if inScope(chain[k]) && present(chain[k].provider) {
        preserve := preserve + {chain[k]};
      }
      if inScope(chain[k]) && reused(chain[k].provider) {
        preserveFailures := preserveFailures + {chain[k]};
      }
      k := k + 1;
    }
    assert chain[..|chain|] == chain;
  }
}
