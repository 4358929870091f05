// internal/ledger/budget.go and the pending-row recovery of
// internal/ledger/gateway.go. Admission looks at settled charges only, so the
// guarantee is an overshoot bound over whole runs. Times are milliseconds.
module Budget {
  import opened Basics
  import opened Sums
  import opened Text

  const FIVE_HOURS: int := 5 * 3600 * 1000
  const SEVEN_DAYS: int := 7 * 24 * 3600 * 1000

  // Unset is the mode of the empty policy only.
  datatype Mode = Alert | Soft | Hard | Unset

  datatype Policy = Policy(currency: string, fiveHourLimit: real, weeklyLimit: real, alertThreshold: real, mode: Mode)

  const NO_POLICY := Policy("", 0.0, 0.0, 0.0, Unset)

  datatype Window = FiveHour | SevenDay

  datatype ChargeState = Pending | Settled | Unknown

  datatype Charge = Charge(at: int, provider: string, currency: string, amount: real, state: ChargeState)

  datatype Tables = Tables(charges: map<string, Charge>, resets: map<(string, Window), int>)

  const EMPTY := Tables(map[], map[])

  datatype Refusal = InvalidPolicy | UsageUnknown | HardLimit | ConfirmationRequired | DuplicateRequest

  function Limit(p: Policy, w: Window): real {
    if w == FiveHour then p.fiveHourLimit else p.weeklyLimit
  }

  function Span(w: Window): int {
    if w == FiveHour then FIVE_HOURS else SEVEN_DAYS
  }

  // The empty policy is valid and limits nothing.
  predicate ValidPolicy(p: Policy) {
    || p == NO_POLICY
    || (ByteLength(p.currency) == 3 && (forall c :: c in p.currency ==> !('a' <= c <= 'z'))
        && p.fiveHourLimit >= 0.0 && p.weeklyLimit >= 0.0
        && (p.fiveHourLimit > 0.0 || p.weeklyLimit > 0.0)
        && 0.0 < p.alertThreshold <= 1.0 && p.mode != Unset)
  }

  // The first instant of a rolling window; a reset inside it moves it forward.
  function WindowStart(t: Tables, provider: string, w: Window, now: int): int {
    var start := now - Span(w);
    if (provider, w) in t.resets && t.resets[(provider, w)] >= start then t.resets[(provider, w)] + 1 else start
  }

  // Rows written before provider scopes existed carry the empty scope.
  predicate InWindow(t: Tables, c: Charge, provider: string, currency: string, w: Window, now: int) {
    && (c.provider == provider || c.provider == "") && c.currency == currency
    && WindowStart(t, provider, w, now) <= c.at <= now
  }

  function Charged(t: Tables, provider: string, currency: string, w: Window, now: int): map<string, real> {
    map id | id in t.charges && InWindow(t, t.charges[id], provider, currency, w, now) :: t.charges[id].amount
  }

  ghost function Spend(t: Tables, provider: string, currency: string, w: Window, now: int): real {
    Total(Charged(t, provider, currency, w, now))
  }

  predicate UnknownIn(t: Tables, provider: string, p: Policy, w: Window, now: int) {
    && Limit(p, w) > 0.0
    && exists id :: id in t.charges && t.charges[id].state == Unknown && InWindow(t, t.charges[id], provider, p.currency, w, now)
  }

  ghost predicate Over(t: Tables, provider: string, p: Policy, w: Window, now: int) {
    Limit(p, w) > 0.0 && Spend(t, provider, p.currency, w, now) >= Limit(p, w)
  }

  // Spend over limit, compared without dividing; without a limit the ratio is 0.
  ghost predicate Warns(t: Tables, provider: string, p: Policy, w: Window, now: int) {
    if Limit(p, w) > 0.0 then Spend(t, provider, p.currency, w, now) >= p.alertThreshold * Limit(p, w)
    else p.alertThreshold <= 0.0
  }

  ghost function Decide(t: Tables, id: string, provider: string, p: Policy, confirmed: bool, now: int): Option<Refusal> {
    var over := Over(t, provider, p, FiveHour, now) || Over(t, provider, p, SevenDay, now);
    var warning := Warns(t, provider, p, FiveHour, now) || Warns(t, provider, p, SevenDay, now);
    if id == "" || Blank(provider) || !ValidPolicy(p) then Some(InvalidPolicy)
    else if UnknownIn(t, provider, p, FiveHour, now) || UnknownIn(t, provider, p, SevenDay, now) then Some(UsageUnknown)
    else if p.mode == Hard && over then Some(HardLimit)
    else if p.mode == Soft && (over || warning) && !confirmed then Some(ConfirmationRequired)
    else if id in t.charges then Some(DuplicateRequest)
    else None
  }

  // ----- One step of the ledger -----

  datatype Action =
    | Check(id: string, provider: string, policy: Policy, confirmed: bool)
    | Settle(id: string, cost: Option<real>)
    | Release(id: string)
    | Reset(provider: string, window: Window)
    | Restart

  ghost function Apply(t: Tables, a: Action, now: int): Tables {
    match a
    case Check(id, provider, p, confirmed) =>
      if Decide(t, id, provider, p, confirmed, now).Some? then t
      else t.(charges := t.charges[id := Charge(now, provider, p.currency, 0.0, Pending)])
    case Settle(id, cost) =>
      if id !in t.charges then t
      else t.(charges := t.charges[id := SettledRow(t.charges[id], cost, now)])
    case Release(id) =>
      if !Blank(id) && id in t.charges && t.charges[id].state == Pending then t.(charges := t.charges - {id}) else t
    case Reset(provider, w) => t.(resets := t.resets[(provider, w) := now])
    case Restart => t.(charges := map id | id in t.charges :: Abandoned(t.charges[id]))
  }

  // Settlement moves the row to the settlement time.
  function SettledRow(c: Charge, cost: Option<real>, now: int): Charge {
    if cost.Some? then c.(at := now, amount := cost.value, state := Settled)
    else c.(at := now, amount := 0.0, state := Unknown)
  }

  function Abandoned(c: Charge): Charge {
    if c.state == Pending then c.(state := Unknown) else c
  }

  // ----- The bound, for one provider under one hard policy -----

  function PendingOf(t: Tables, provider: string, currency: string): set<string> {
    set id | id in t.charges && t.charges[id].provider == provider && t.charges[id].currency == currency
             && t.charges[id].state == Pending
  }

  // What the discipline of the caller gives: a settled row was pending, its
  // charge is at most m, and checks of this provider use this hard policy.
  predicate Allowed(t: Tables, a: Action, provider: string, p: Policy, m: real) {
    match a
    case Check(_, q, policy, _) => q == provider && policy.currency == p.currency ==> policy == p
    case Settle(id, cost) => id in t.charges && t.charges[id].state == Pending && (cost.Some? ==> 0.0 <= cost.value <= m)
    case _ => true
  }

  // Rows of the past, pending and unknown rows without amount, no scopeless rows.
  ghost predicate Sound(t: Tables, now: int) {
    && (forall id :: id in t.charges ==> t.charges[id].at <= now && t.charges[id].amount >= 0.0 && t.charges[id].provider != "")
    && (forall id :: id in t.charges && t.charges[id].state != Settled ==> t.charges[id].amount == 0.0)
    && (forall k :: k in t.resets ==> t.resets[k] <= now)
  }

  // Spend plus what the pending requests may still charge.
  ghost predicate Bounded(t: Tables, provider: string, p: Policy, k: nat, m: real, now: int) {
    forall w: Window :: Limit(p, w) > 0.0 ==>
      Spend(t, provider, p.currency, w, now) + |PendingOf(t, provider, p.currency)| as real * m < Limit(p, w) + k as real * m
  }

  // ----- Windows only move forward -----

  lemma WindowStartMonotone(t: Tables, provider: string, w: Window, now: int, later: int)
    requires now <= later
    ensures WindowStart(t, provider, w, now) <= WindowStart(t, provider, w, later)
  {
  }

  lemma SpendFalls(t: Tables, provider: string, currency: string, w: Window, now: int, later: int)
    requires Sound(t, now) && now <= later
    ensures Spend(t, provider, currency, w, later) <= Spend(t, provider, currency, w, now)
  {
    hide Total;
    WindowStartMonotone(t, provider, w, now, later);
    TotalSubset(Charged(t, provider, currency, w, later), Charged(t, provider, currency, w, now));
  }

  lemma BoundedLater(t: Tables, provider: string, p: Policy, k: nat, m: real, now: int, later: int)
    requires Sound(t, now) && Bounded(t, provider, p, k, m, now) && now <= later
    ensures Sound(t, later) && Bounded(t, provider, p, k, m, later)
  {
    hide Spend;
    forall w: Window ensures Spend(t, provider, p.currency, w, later) <= Spend(t, provider, p.currency, w, now) {
      SpendFalls(t, provider, p.currency, w, now, later);
    }
  }

  // ----- Each action keeps the bound -----

  lemma CheckKeepsBound(t: Tables, a: Action, provider: string, p: Policy, k: nat, m: real, now: int)
    requires a.Check? && p.mode == Hard && m >= 0.0
    requires Sound(t, now) && Allowed(t, a, provider, p, m) && Bounded(t, provider, p, k, m, now)
    requires |PendingOf(Apply(t, a, now), provider, p.currency)| <= k
    ensures Bounded(Apply(t, a, now), provider, p, k, m, now)
  {
    hide Spend, Apply, Allowed, Sound;
    var after := Apply(t, a, now);
    if after != t {
      forall w: Window | Limit(p, w) > 0.0
        ensures Spend(after, provider, p.currency, w, now) + |PendingOf(after, provider, p.currency)| as real * m < Limit(p, w) + k as real * m
      {
        AdmissionKeepsBound(t, a, provider, p, k, m, now, w);
      }
    }
  }

  lemma AdmissionKeepsBound(t: Tables, a: Action, provider: string, p: Policy, k: nat, m: real, now: int, w: Window)
    requires a.Check? && p.mode == Hard && m >= 0.0 && Limit(p, w) > 0.0 && Apply(t, a, now) != t
    requires Allowed(t, a, provider, p, m) && Bounded(t, provider, p, k, m, now)
    requires |PendingOf(Apply(t, a, now), provider, p.currency)| <= k
    ensures var after := Apply(t, a, now);
            Spend(after, provider, p.currency, w, now) + |PendingOf(after, provider, p.currency)| as real * m < Limit(p, w) + k as real * m
  {
    hide Spend, UnknownIn, InWindow, PendingOf, Decide;
    var after := Apply(t, a, now);
    AdmissionAddsRow(t, a, now);
    PendingCostsNothing(t, after, a.id, provider, p.currency, w, now);
    if a.provider == provider && a.policy.currency == p.currency {
      NotOver(t, a, provider, p, w, now);
      Scale(|PendingOf(after, provider, p.currency)|, k, m);
    } else {
      OtherAdmission(t, a, provider, p.currency, now);
    }
  }

  lemma AdmissionAddsRow(t: Tables, a: Action, now: int)
    requires a.Check? && Apply(t, a, now) != t
    ensures a.id !in t.charges && Decide(t, a.id, a.provider, a.policy, a.confirmed, now).None?
    ensures Apply(t, a, now) == t.(charges := t.charges[a.id := Charge(now, a.provider, a.policy.currency, 0.0, Pending)])
  {
    hide Spend, UnknownIn, Over, Warns, ValidPolicy, Blank;
  }

  lemma NotOver(t: Tables, a: Action, provider: string, p: Policy, w: Window, now: int)
    requires a.Check? && Decide(t, a.id, a.provider, a.policy, a.confirmed, now).None?
    requires a.provider == provider && a.policy == p && p.mode == Hard && Limit(p, w) > 0.0
    ensures Spend(t, provider, p.currency, w, now) < Limit(p, w)
  {
    hide Spend, UnknownIn, Warns, ValidPolicy, Blank;
  }

  lemma OtherAdmission(t: Tables, a: Action, provider: string, currency: string, now: int)
    requires a.Check? && a.id !in t.charges && !(a.provider == provider && a.policy.currency == currency)
    requires Apply(t, a, now) == t.(charges := t.charges[a.id := Charge(now, a.provider, a.policy.currency, 0.0, Pending)])
    ensures PendingOf(Apply(t, a, now), provider, currency) == PendingOf(t, provider, currency)
  {
    hide Spend, Decide;
  }

  lemma Scale(a: nat, b: nat, m: real)
    requires a <= b && m >= 0.0
    ensures a as real * m <= b as real * m
  {
  }

  lemma PendingCostsNothing(t: Tables, after: Tables, id: string, provider: string, currency: string, w: Window, now: int)
    requires id !in t.charges && id in after.charges && after.charges[id].amount == 0.0
    requires after == t.(charges := t.charges[id := after.charges[id]])
    ensures Spend(after, provider, currency, w, now) == Spend(t, provider, currency, w, now)
  {
    hide Total;
    SameStart(t, after, provider, w, now);
    hide WindowStart;
    var before := Charged(t, provider, currency, w, now);
    if InWindow(after, after.charges[id], provider, currency, w, now) {
      TotalInsert(before, id, 0.0);
      assert Charged(after, provider, currency, w, now) == before[id := 0.0];
    } else {
      assert Charged(after, provider, currency, w, now) == before;
    }
  }

  // Settling turns one pending request into at most m of spend.
  lemma SettleKeepsBound(t: Tables, a: Action, provider: string, p: Policy, k: nat, m: real, now: int)
    requires a.Settle? && m >= 0.0
    requires Sound(t, now) && Allowed(t, a, provider, p, m) && Bounded(t, provider, p, k, m, now)
    ensures Bounded(Apply(t, a, now), provider, p, k, m, now)
  {
    hide Spend, Sound, InWindow;
    var after := Apply(t, a, now);
    forall w: Window
      ensures Spend(after, provider, p.currency, w, now) + |PendingOf(after, provider, p.currency)| as real * m
           <= Spend(t, provider, p.currency, w, now) + |PendingOf(t, provider, p.currency)| as real * m
    {
      SettleMovesSpend(t, a, provider, p.currency, w, m, now);
      SettleMovesPending(t, a, provider, p.currency, m, now);
    }
  }

  lemma SettleMovesPending(t: Tables, a: Action, provider: string, currency: string, m: real, now: int)
    requires a.Settle? && a.id in t.charges && t.charges[a.id].state == Pending
    ensures var mine := t.charges[a.id].provider == provider && t.charges[a.id].currency == currency;
            |PendingOf(Apply(t, a, now), provider, currency)| as real * m
            == |PendingOf(t, provider, currency)| as real * m - if mine then m else 0.0
  {
    hide Total;
    var before, after := PendingOf(t, provider, currency), PendingOf(Apply(t, a, now), provider, currency);
    if a.id in before {
      assert after == before - {a.id};
      assert |after| as real == |before| as real - 1.0;
    } else {
      assert after == before;
    }
  }

  lemma SettleMovesSpend(t: Tables, a: Action, provider: string, currency: string, w: Window, m: real, now: int)
    requires a.Settle? && a.id in t.charges && t.charges[a.id].state == Pending && Sound(t, now)
    requires a.cost.Some? ==> 0.0 <= a.cost.value <= m
    requires m >= 0.0
    ensures var mine := t.charges[a.id].provider == provider && t.charges[a.id].currency == currency;
            Spend(Apply(t, a, now), provider, currency, w, now) <= Spend(t, provider, currency, w, now) + if mine then m else 0.0
  {
    hide Total, WindowStart;
    var after := Apply(t, a, now);
    SameStart(t, after, provider, w, now);
    var before, charged := Charged(t, provider, currency, w, now), Charged(after, provider, currency, w, now);
    SettleKeepsOthers(t, a, provider, currency, w, now);
    TotalWithout(before, a.id);
    TotalWithout(charged, a.id);
  }

  lemma SettleKeepsOthers(t: Tables, a: Action, provider: string, currency: string, w: Window, now: int)
    requires a.Settle? && a.id in t.charges && t.charges[a.id].state == Pending
    ensures Charged(Apply(t, a, now), provider, currency, w, now) - {a.id} == Charged(t, provider, currency, w, now) - {a.id}
  {
    hide WindowStart;
    SameStart(t, Apply(t, a, now), provider, w, now);
  }

  lemma TotalWithout(m: map<string, real>, id: string)
    ensures Total(m) == Total(m - {id}) + if id in m then m[id] else 0.0
  {
    if id in m {
      TotalRemove(m, id);
    } else {
      assert m - {id} == m;
    }
  }

  lemma ReleaseKeepsBound(t: Tables, id: string, provider: string, p: Policy, k: nat, m: real, now: int)
    requires m >= 0.0 && Sound(t, now) && Bounded(t, provider, p, k, m, now)
    ensures Bounded(Apply(t, Release(id), now), provider, p, k, m, now)
  {
    hide Total;
    var after := Apply(t, Release(id), now);
    forall w: Window ensures Spend(after, provider, p.currency, w, now) <= Spend(t, provider, p.currency, w, now) {
      TotalSubset(Charged(after, provider, p.currency, w, now), Charged(t, provider, p.currency, w, now));
    }
    FewerPending(t, after, provider, p.currency, m);
  }

  lemma FewerPending(t: Tables, after: Tables, provider: string, currency: string, m: real)
    requires m >= 0.0
    requires forall id :: id in PendingOf(after, provider, currency) ==> id in PendingOf(t, provider, currency)
    ensures |PendingOf(after, provider, currency)| as real * m <= |PendingOf(t, provider, currency)| as real * m
  {
    var rest := PendingOf(t, provider, currency) - PendingOf(after, provider, currency);
    assert PendingOf(after, provider, currency) + rest == PendingOf(t, provider, currency);
    Scale(|PendingOf(after, provider, currency)|, |PendingOf(t, provider, currency)|, m);
  }

  lemma ResetKeepsBound(t: Tables, q: string, window: Window, provider: string, p: Policy, k: nat, m: real, now: int)
    requires m >= 0.0 && Sound(t, now) && Bounded(t, provider, p, k, m, now)
    ensures Bounded(Apply(t, Reset(q, window), now), provider, p, k, m, now)
  {
    hide Total;
    var after := Apply(t, Reset(q, window), now);
    forall w: Window ensures Spend(after, provider, p.currency, w, now) <= Spend(t, provider, p.currency, w, now) {
      TotalSubset(Charged(after, provider, p.currency, w, now), Charged(t, provider, p.currency, w, now));
    }
    assert PendingOf(after, provider, p.currency) == PendingOf(t, provider, p.currency);
  }

  lemma RestartKeepsBound(t: Tables, provider: string, p: Policy, k: nat, m: real, now: int)
    requires m >= 0.0 && Sound(t, now) && Bounded(t, provider, p, k, m, now)
    ensures Bounded(Apply(t, Restart, now), provider, p, k, m, now)
  {
    hide Total;
    var after := Apply(t, Restart, now);
    forall w: Window ensures Spend(after, provider, p.currency, w, now) == Spend(t, provider, p.currency, w, now) {
      assert Charged(after, provider, p.currency, w, now) == Charged(t, provider, p.currency, w, now);
    }
    FewerPending(t, after, provider, p.currency, m);
  }

  lemma ActionKeepsSound(t: Tables, a: Action, provider: string, p: Policy, m: real, now: int)
    requires Sound(t, now) && Allowed(t, a, provider, p, m)
    ensures Sound(Apply(t, a, now), now)
  {
    hide Spend, Over, Warns;
  }

  // ----- Whole runs -----

  datatype Event = Event(action: Action, at: int)

  ghost function Run(events: seq<Event>): Tables {
    if events == [] then EMPTY
    else Apply(Run(events[..|events| - 1]), events[|events| - 1].action, events[|events| - 1].at)
  }

  // A run with a monotone clock, at most k requests of the provider pending at
  // once, charges of at most m, and one hard policy for the provider.
  ghost predicate Disciplined(events: seq<Event>, provider: string, p: Policy, k: nat, m: real) {
    && (forall i, j :: 0 <= i < j < |events| ==> events[i].at <= events[j].at)
    && (forall i :: 0 <= i < |events| ==> Allowed(Run(events[..i]), events[i].action, provider, p, m))
    && (forall i :: 0 <= i <= |events| ==> |PendingOf(Run(events[..i]), provider, p.currency)| <= k)
  }

  lemma {:induction false} RunKeepsBound(events: seq<Event>, provider: string, p: Policy, k: nat, m: real, now: int)
    requires p.mode == Hard && m >= 0.0 && Disciplined(events, provider, p, k, m)
    requires events != [] ==> events[|events| - 1].at <= now
    ensures Sound(Run(events), now) && Bounded(Run(events), provider, p, k, m, now)
  {
    if events == [] {
      EmptyIsBounded(provider, p, k, m, now);
    } else {
      var n := |events| - 1;
      var before, e := events[..n], events[n];
      assert forall i :: 0 <= i <= n ==> before[..i] == events[..i];
      RunKeepsBound(before, provider, p, k, m, e.at);
      assert events[..|events|] == events;
      assert Run(events) == Apply(Run(before), e.action, e.at);
      ActionKeepsBound(Run(before), e.action, provider, p, k, m, e.at);
      BoundedLater(Run(events), provider, p, k, m, e.at, now);
    }
  }

  lemma EmptyIsBounded(provider: string, p: Policy, k: nat, m: real, now: int)
    requires m >= 0.0
    ensures Sound(EMPTY, now) && Bounded(EMPTY, provider, p, k, m, now)
  {
    forall w: Window ensures Spend(EMPTY, provider, p.currency, w, now) == 0.0 {
      assert Charged(EMPTY, provider, p.currency, w, now) == map[];
    }
    assert PendingOf(EMPTY, provider, p.currency) == {};
    Scale(0, k, m);
  }

  lemma ActionKeepsBound(t: Tables, a: Action, provider: string, p: Policy, k: nat, m: real, now: int)
    requires p.mode == Hard && m >= 0.0
    requires Sound(t, now) && Allowed(t, a, provider, p, m) && Bounded(t, provider, p, k, m, now)
    requires |PendingOf(Apply(t, a, now), provider, p.currency)| <= k
    ensures Sound(Apply(t, a, now), now) && Bounded(Apply(t, a, now), provider, p, k, m, now)
  {
    hide *;
    ActionKeepsSound(t, a, provider, p, m, now);
    match a
    case Check(_, _, _, _) => CheckKeepsBound(t, a, provider, p, k, m, now);
    case Settle(_, _) => SettleKeepsBound(t, a, provider, p, k, m, now);
    case Release(id) => ReleaseKeepsBound(t, id, provider, p, k, m, now);
    case Reset(q, w) => ResetKeepsBound(t, q, w, provider, p, k, m, now);
    case Restart => RestartKeepsBound(t, provider, p, k, m, now);
  }

  // In hard mode recorded spend stays below limit plus k times m in every
  // enabled rolling window, at the last event and at any later time.
  lemma HardBudgetOvershoot(events: seq<Event>, provider: string, p: Policy, k: nat, m: real, now: int, w: Window)
    requires p.mode == Hard && m >= 0.0 && Disciplined(events, provider, p, k, m)
    requires events != [] ==> events[|events| - 1].at <= now
    requires Limit(p, w) > 0.0
    ensures Spend(Run(events), provider, p.currency, w, now) < Limit(p, w) + k as real * m
  {
    hide Spend, Run, Disciplined, Sound;
    RunKeepsBound(events, provider, p, k, m, now);
    Scale(0, |PendingOf(Run(events), provider, p.currency)|, m);
  }

  lemma SameStart(t: Tables, after: Tables, provider: string, w: Window, now: int)
    requires after.resets == t.resets
    ensures WindowStart(after, provider, w, now) == WindowStart(t, provider, w, now)
  {
  }

  lemma SettleAddsSpend(t: Tables, id: string, provider: string, currency: string, w: Window, m: real, now: int)
    requires id in t.charges && t.charges[id].provider == provider && t.charges[id].currency == currency
    requires t.charges[id].amount == 0.0 && WindowStart(t, provider, w, now) <= now
    ensures Spend(Apply(t, Settle(id, Some(m)), now), provider, currency, w, now) == Spend(t, provider, currency, w, now) + m
  {
    hide Total, WindowStart;
    var after := Apply(t, Settle(id, Some(m)), now);
    SameStart(t, after, provider, w, now);
    var before, charged := Charged(t, provider, currency, w, now), Charged(after, provider, currency, w, now);
    assert charged[id] == m;
    TotalRemove(charged, id);
    if id in before {
      TotalRemove(before, id);
      assert charged - {id} == before - {id};
    } else {
      assert charged - {id} == before;
    }
  }

  // ----- The ledger object -----

  datatype Decision = Decision(warning: bool)

  class Ledger {
    var charges: map<string, Charge>
    var resets: map<(string, Window), int>

    ghost function Value(): Tables
      reads this
    {
      Tables(charges, resets)
    }

    constructor ()
      ensures Value() == EMPTY
    {
      charges, resets := map[], map[];
    }

    method Spent(provider: string, currency: string, w: Window, now: int) returns (sum: real)
      ensures sum == Spend(Value(), provider, currency, w, now)
    {
      sum := SumRows(Charged(Tables(charges, resets), provider, currency, w, now));
    }

    method CheckBudget(id: string, provider: string, p: Policy, confirmed: bool, now: int) returns (r: Result<Decision, Refusal>)
      modifies this
      ensures Value() == Apply(old(Value()), Check(id, provider, p, confirmed), now)
      ensures var refusal := Decide(old(Value()), id, provider, p, confirmed, now);
              if refusal.Some? then r == Err(refusal.value)
              else r == Ok(Decision(Warns(old(Value()), provider, p, FiveHour, now) || Warns(old(Value()), provider, p, SevenDay, now)))
    {
      hide Spend, InWindow;
      if id == "" || Blank(provider) || !ValidPolicy(p) {
        return Err(InvalidPolicy);
      }
      if UnknownIn(Tables(charges, resets), provider, p, FiveHour, now) || UnknownIn(Tables(charges, resets), provider, p, SevenDay, now) {
        return Err(UsageUnknown);
      }
      var fiveHour := Spent(provider, p.currency, FiveHour, now);
      var weekly := Spent(provider, p.currency, SevenDay, now);
      var over := (p.fiveHourLimit > 0.0 && fiveHour >= p.fiveHourLimit) || (p.weeklyLimit > 0.0 && weekly >= p.weeklyLimit);
      var warning := (if p.fiveHourLimit > 0.0 then fiveHour >= p.alertThreshold * p.fiveHourLimit else p.alertThreshold <= 0.0)
                     || (if p.weeklyLimit > 0.0 then weekly >= p.alertThreshold * p.weeklyLimit else p.alertThreshold <= 0.0);
      assert over == (Over(Value(), provider, p, FiveHour, now) || Over(Value(), provider, p, SevenDay, now));
      assert warning == (Warns(Value(), provider, p, FiveHour, now) || Warns(Value(), provider, p, SevenDay, now));
      if p.mode == Hard && over {
        return Err(HardLimit);
      }
      if p.mode == Soft && (over || warning) && !confirmed {
        return Err(ConfirmationRequired);
      }
      if id in charges {
        return Err(DuplicateRequest);
      }
      charges := charges[id := Charge(now, provider, p.currency, 0.0, Pending)];
      r := Ok(Decision(warning));
    }

    method ReleaseBudgetReservation(id: string) returns (ok: bool)
      modifies this
      ensures ok == (!Blank(id) && id in old(charges) && old(charges)[id].state == Pending)
      ensures forall now :: Value() == Apply(old(Value()), Release(id), now)
    {
      ok := !Blank(id) && id in charges && charges[id].state == Pending;
      if ok {
        charges := charges - {id};
      }
    }

    // The cost comes from the audit row. A row without a cost, and no row at all,
    // leave unknown usage; the latter is reported to the caller.
    method RecordBudgetCharge(id: string, provider: string, currency: string, audits: map<string, Option<real>>, auditId: string,
                              now: int) returns (auditMissing: bool)
      modifies this
      ensures auditMissing == (auditId !in audits)
      ensures resets == old(resets)
      ensures var cost := if auditId in audits then audits[auditId] else None;
              && charges == old(charges)[id := SettledRow(Charge(now, provider, currency, 0.0, Pending), cost, now)]
              && (id in old(charges) && old(charges)[id].provider == provider && old(charges)[id].currency == currency
                  ==> Value() == Apply(old(Value()), Settle(id, cost), now))
    {
      auditMissing := auditId !in audits;
      WriteCharge(id, provider, currency, if auditMissing then None else audits[auditId], now);
    }

    // A cost that is known although its audit row was lost.
    method RecordBudgetChargeWithCost(id: string, provider: string, currency: string, cost: real, now: int) returns (ok: bool)
      modifies this
      ensures ok == (cost >= 0.0) && resets == old(resets)
      ensures charges == if ok then old(charges)[id := Charge(now, provider, currency, cost, Settled)] else old(charges)
    {
      ok := cost >= 0.0;
      if ok {
        WriteCharge(id, provider, currency, Some(cost), now);
      }
    }

    // An update of the reservation's row; a charge without one is inserted.
    method WriteCharge(id: string, provider: string, currency: string, cost: Option<real>, now: int)
      modifies this
      ensures resets == old(resets)
      ensures charges == old(charges)[id := SettledRow(Charge(now, provider, currency, 0.0, Pending), cost, now)]
    {
      var amount, state := 0.0, Unknown;
      if cost.Some? {
        amount, state := cost.value, Settled;
      }
      charges := charges[id := Charge(now, provider, currency, amount, state)];
    }

    method ResetProviderBudget(provider: string, w: Window, now: int) returns (ok: bool)
      modifies this
      ensures ok == !Blank(provider)
      ensures Value() == if ok then Apply(old(Value()), Reset(provider, w), now) else old(Value())
    {
      ok := !Blank(provider);
      if ok {
        resets := resets[(provider, w) := now];
      }
    }

    // OpenForGateway: attempts abandoned by a crash have unknown usage.
    method Reopen()
      modifies this
      ensures forall now :: Value() == Apply(old(Value()), Restart, now)
      ensures forall id :: id in charges ==> charges[id].state != Pending
    {
      charges := map id | id in charges :: Abandoned(charges[id]);
    }
  }
}
