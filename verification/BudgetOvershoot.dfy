// The overshoot bound of internal/ledger/budget.go is not slack: a disciplined
// run comes as near to limit plus k times m as one likes.
module BudgetOvershoot {
  import opened Basics
  import opened Sums
  import opened Budget
  import Text

  function Id(j: nat): string {
    if j == 0 then "r" else Id(j - 1) + "r"
  }

  lemma {:induction false} IdLength(j: nat)
    ensures |Id(j)| == j + 1
  {
    if j > 0 {
      IdLength(j - 1);
    }
  }

  // ----- One event more -----

  // A disciplined run whose events all happen at one instant.
  ghost predicate Burst(events: seq<Event>, provider: string, p: Policy, k: nat, m: real, now: int) {
    Disciplined(events, provider, p, k, m) && forall i :: 0 <= i < |events| ==> events[i].at == now
  }

  lemma RunPushed(events: seq<Event>, e: Event)
    ensures Run(events + [e]) == Apply(Run(events), e.action, e.at)
    ensures forall i :: 0 <= i <= |events| ==> (events + [e])[..i] == events[..i]
    ensures events[..|events|] == events && (events + [e])[..|events| + 1] == events + [e]
  {
    hide Apply;
    var longer := events + [e];
    assert longer[..|events|] == events;
    forall i | 0 <= i <= |events| ensures longer[..i] == events[..i] {}
  }

  lemma Extend(events: seq<Event>, a: Action, provider: string, p: Policy, k: nat, m: real, now: int)
    requires Burst(events, provider, p, k, m, now) && Allowed(Run(events), a, provider, p, m)
    requires |PendingOf(Apply(Run(events), a, now), provider, p.currency)| <= k
    ensures Burst(events + [Event(a, now)], provider, p, k, m, now)
    ensures Run(events + [Event(a, now)]) == Apply(Run(events), a, now)
  {
    hide Apply, Allowed, PendingOf, Run;
    RunPushed(events, Event(a, now));
    var longer, n := events + [Event(a, now)], |events|;
    forall i | 0 <= i < |longer| ensures Allowed(Run(longer[..i]), longer[i].action, provider, p, m) {
      if i < n { assert longer[i] == events[i]; }
    }
    forall i | 0 <= i <= |longer| ensures |PendingOf(Run(longer[..i]), provider, p.currency)| <= k {
      if i == n + 1 { assert longer[..i] == longer; }
    }
  }

  // ----- What the tables hold during the burst -----

  // Rows of one provider at one instant: the pending ones of `open`, settled
  // ones of the given total, and only the first `used` identifiers.
  ghost predicate Tidy(t: Tables, provider: string, currency: string, now: int, used: nat, pending: set<string>, total: real) {
    && t.resets == map[] && PendingOf(t, provider, currency) == pending
    && (forall id :: id in t.charges ==>
          t.charges[id].provider == provider && t.charges[id].currency == currency && t.charges[id].at == now
          && t.charges[id].state != Unknown && (id in pending ==> t.charges[id].amount == 0.0))
    && (forall id :: id in t.charges ==> |id| <= used)
    && (forall w: Window :: Spend(t, provider, currency, w, now) == total)
  }

  lemma EmptyIsTidy(provider: string, currency: string, now: int)
    ensures Tidy(EMPTY, provider, currency, now, 0, {}, 0.0)
  {
    forall w: Window ensures Spend(EMPTY, provider, currency, w, now) == 0.0 {
      assert Charged(EMPTY, provider, currency, w, now) == map[];
    }
    assert PendingOf(EMPTY, provider, currency) == {};
  }

  ghost predicate Roomy(p: Policy, w: Window, total: real) {
    p.mode == Hard && ValidPolicy(p) && Limit(p, w) > 0.0 && total < Limit(p, w)
    && forall v: Window :: Limit(p, v) > 0.0 ==> Limit(p, w) <= Limit(p, v)
  }

  lemma AdmittedWhileRoomy(t: Tables, provider: string, p: Policy, now: int, used: nat, pending: set<string>, w: Window, total: real)
    requires Tidy(t, provider, p.currency, now, used, pending, total) && Roomy(p, w, total) && !Text.Blank(provider)
    ensures Id(used) !in t.charges && Decide(t, Id(used), provider, p, false, now) == None
  {
    hide Spend, InWindow, Text.Blank;
    IdLength(used);
  }

  lemma CheckStaysTidy(t: Tables, provider: string, p: Policy, now: int, used: nat, pending: set<string>, w: Window, total: real)
    requires Tidy(t, provider, p.currency, now, used, pending, total) && Roomy(p, w, total) && !Text.Blank(provider)
    ensures var after := Apply(t, Check(Id(used), provider, p, false), now);
            Tidy(after, provider, p.currency, now, used + 1, pending + {Id(used)}, total)
  {
    AdmittedWhileRoomy(t, provider, p, now, used, pending, w, total);
    IdLength(used);
    hide Decide, Id;
    var id := Id(used);
    var after := Apply(t, Check(id, provider, p, false), now);
    assert after == t.(charges := t.charges[id := Charge(now, provider, p.currency, 0.0, Pending)]);
    assert PendingOf(after, provider, p.currency) == pending + {id};
    forall v: Window ensures Spend(after, provider, p.currency, v, now) == total {
      ChargedGrows(t, after, id, provider, p.currency, v, now);
    }
    hide Spend;
  }

  lemma ChargedGrows(t: Tables, after: Tables, id: string, provider: string, currency: string, w: Window, now: int)
    requires id !in t.charges && after == t.(charges := t.charges[id := Charge(now, provider, currency, 0.0, Pending)])
    requires t.resets == map[]
    ensures Spend(after, provider, currency, w, now) == Spend(t, provider, currency, w, now)
  {
    hide Total;
    var before, charged := Charged(t, provider, currency, w, now), Charged(after, provider, currency, w, now);
    assert charged == before[id := 0.0];
    TotalInsert(before, id, 0.0);
  }

  lemma SettleStaysTidy(t: Tables, id: string, provider: string, p: Policy, now: int, used: nat, pending: set<string>, total: real, cost: real)
    requires Tidy(t, provider, p.currency, now, used, pending, total) && id in pending
    ensures id in t.charges && t.charges[id].state == Pending
    ensures Tidy(Apply(t, Settle(id, Some(cost)), now), provider, p.currency, now, used, pending - {id}, total + cost)
  {
    var after := Apply(t, Settle(id, Some(cost)), now);
    assert id in PendingOf(t, provider, p.currency);
    assert PendingOf(after, provider, p.currency) == pending - {id};
    forall v: Window ensures Spend(after, provider, p.currency, v, now) == total + cost {
      SettleAddsSpend(t, id, provider, p.currency, v, cost, now);
    }
    hide Spend, PendingOf;
  }

  // ----- The burst -----

  ghost predicate Reached(events: seq<Event>, provider: string, p: Policy, k: nat, m: real, now: int, used: nat,
                          pending: set<string>, total: real) {
    Burst(events, provider, p, k, m, now) && Tidy(Run(events), provider, p.currency, now, used, pending, total)
  }

  lemma CheckOnce(events: seq<Event>, provider: string, p: Policy, k: nat, m: real, now: int, used: nat, pending: set<string>,
                  w: Window, total: real) returns (longer: seq<Event>)
    requires Reached(events, provider, p, k, m, now, used, pending, total) && Roomy(p, w, total) && !Text.Blank(provider)
    requires |pending| < k
    ensures Reached(longer, provider, p, k, m, now, used + 1, pending + {Id(used)}, total) && Id(used) !in pending
  {
    var a := Check(Id(used), provider, p, false);
    CheckStaysTidy(Run(events), provider, p, now, used, pending, w, total);
    AdmittedWhileRoomy(Run(events), provider, p, now, used, pending, w, total);
    assert Id(used) !in PendingOf(Run(events), provider, p.currency);
    PendingIs(Apply(Run(events), a, now), provider, p.currency, now, used + 1, pending + {Id(used)}, total);
    hide Burst, Tidy, Run, Apply, PendingOf, Id, Decide;
    Extend(events, a, provider, p, k, m, now);
    longer := events + [Event(a, now)];
  }

  lemma PendingIs(t: Tables, provider: string, currency: string, now: int, used: nat, pending: set<string>, total: real)
    requires Tidy(t, provider, currency, now, used, pending, total)
    ensures PendingOf(t, provider, currency) == pending
  {
  }

  lemma SettleOnce(events: seq<Event>, id: string, provider: string, p: Policy, k: nat, m: real, now: int, used: nat,
                   pending: set<string>, total: real, cost: real) returns (longer: seq<Event>)
    requires Reached(events, provider, p, k, m, now, used, pending, total) && id in pending && |pending| <= k && 0.0 <= cost <= m
    ensures Reached(longer, provider, p, k, m, now, used, pending - {id}, total + cost)
  {
    var a := Settle(id, Some(cost));
    SettleStaysTidy(Run(events), id, provider, p, now, used, pending, total, cost);
    PendingIs(Apply(Run(events), a, now), provider, p.currency, now, used, pending - {id}, total + cost);
    hide Burst, Tidy, Run, Apply, PendingOf;
    Extend(events, a, provider, p, k, m, now);
    longer := events + [Event(a, now)];
  }

  function Times(n: nat, d: real): real {
    if n == 0 then 0.0 else Times(n - 1, d) + d
  }

  lemma {:induction false} TimesIsProduct(n: nat, d: real)
    ensures Times(n, d) == n as real * d
  {
    if n > 0 {
      TimesIsProduct(n - 1, d);
      assert n as real * d == (n - 1) as real * d + d;
    }
  }

  // n charges of d each, one after the other, while the spend stays below the limit.
  lemma {:induction false} SpendUp(provider: string, p: Policy, k: nat, m: real, now: int, w: Window, n: nat, d: real)
    returns (events: seq<Event>)
    requires k >= 1 && 0.0 <= d <= m && !Text.Blank(provider) && Roomy(p, w, Times(n, d))
    ensures Reached(events, provider, p, k, m, now, n, {}, Times(n, d))
  {
    hide Reached, Text.Blank;
    if n == 0 {
      events := [];
      NothingReached(provider, p, k, m, now);
    } else {
      var total := Times(n - 1, d);
      assert Roomy(p, w, total);
      hide Roomy;
      events := SpendUp(provider, p, k, m, now, w, n - 1, d);
      events := CheckOnce(events, provider, p, k, m, now, n - 1, {}, w, total);
      assert {} + {Id(n - 1)} == {Id(n - 1)} && {Id(n - 1)} - {Id(n - 1)} == {};
      events := SettleOnce(events, Id(n - 1), provider, p, k, m, now, n, {Id(n - 1)}, total, d);
    }
  }

  lemma NothingReached(provider: string, p: Policy, k: nat, m: real, now: int)
    ensures Reached([], provider, p, k, m, now, 0, {}, 0.0)
  {
    EmptyIsTidy(provider, p.currency, now);
    assert PendingOf(EMPTY, provider, p.currency) == {};
    var none: seq<Event> := [];
    assert none[..0] == none;
  }

  lemma {:induction false} AdmitTogether(events: seq<Event>, provider: string, p: Policy, k: nat, m: real, now: int, used: nat,
                                         w: Window, total: real, j: nat) returns (longer: seq<Event>, pending: set<string>)
    requires Reached(events, provider, p, k, m, now, used, {}, total) && Roomy(p, w, total) && !Text.Blank(provider) && j <= k
    ensures Reached(longer, provider, p, k, m, now, used + j, pending, total) && |pending| == j
  {
    hide Reached, Roomy, Text.Blank;
    longer, pending := events, {};
    if j > 0 {
      longer, pending := AdmitTogether(events, provider, p, k, m, now, used, w, total, j - 1);
      longer := CheckOnce(longer, provider, p, k, m, now, used + j - 1, pending, w, total);
      pending := pending + {Id(used + j - 1)};
    }
  }

  lemma {:induction false} SettleTogether(events: seq<Event>, provider: string, p: Policy, k: nat, m: real, now: int, used: nat,
                                          pending: set<string>, total: real, j: nat) returns (longer: seq<Event>)
    requires Reached(events, provider, p, k, m, now, used, pending, total) && |pending| == j <= k && m >= 0.0
    ensures Reached(longer, provider, p, k, m, now, used, {}, total + Times(j, m))
    decreases j
  {
    hide Reached;
    longer := events;
    if j == 0 {
      assert pending == {};
      SameReached(longer, provider, p, k, m, now, used, {}, total, total + Times(0, m));
    } else {
      var id :| id in pending;
      longer := SettleOnce(events, id, provider, p, k, m, now, used, pending, total, m);
      longer := SettleTogether(longer, provider, p, k, m, now, used, pending - {id}, total + m, j - 1);
      SameReached(longer, provider, p, k, m, now, used, {}, (total + m) + Times(j - 1, m), total + Times(j, m));
    }
  }

  lemma SameReached(events: seq<Event>, provider: string, p: Policy, k: nat, m: real, now: int, used: nat, pending: set<string>,
                    total: real, sum: real)
    requires Reached(events, provider, p, k, m, now, used, pending, total) && total == sum
    ensures Reached(events, provider, p, k, m, now, used, pending, sum)
  {
  }

  // An amount x below the limit, spent in equal charges of at most m.
  lemma EqualCharges(x: real, m: real) returns (n: nat, d: real)
    requires x >= 0.0 && m > 0.0
    ensures Times(n, d) == x && 0.0 <= d <= m
  {
    n := (x / m).Floor + 1;
    d := x / n as real;
    assert x / m < n as real;
    Quotient(x, m, n);
    TimesIsProduct(n, d);
  }

  lemma Quotient(x: real, m: real, n: nat)
    requires x >= 0.0 && m > 0.0 && n >= 1 && x / m < n as real
    ensures n as real * (x / n as real) == x && 0.0 <= x / n as real <= m
  {
    assert x == (x / m) * m;
    assert (x / m) * m <= n as real * m;
  }

  // Whatever is left below the bound: a run that exceeds it all the same. The
  // window is the tightest of the enabled ones.
  lemma OvershootIsReached(provider: string, p: Policy, k: nat, m: real, now: int, w: Window, slack: real) returns (events: seq<Event>)
    requires k >= 1 && m > 0.0 && slack > 0.0 && !Text.Blank(provider) && Roomy(p, w, 0.0)
    ensures Disciplined(events, provider, p, k, m) && forall i :: 0 <= i < |events| ==> events[i].at == now
    ensures Spend(Run(events), provider, p.currency, w, now) > Limit(p, w) + k as real * m - slack
  {
    TimesIsProduct(k, m);
    hide Times, Run, Spend, Disciplined;
    var x := Limit(p, w) - (if slack < Limit(p, w) then slack else Limit(p, w)) / 2.0;
    assert Roomy(p, w, x) && x > Limit(p, w) - slack;
    var n, d := EqualCharges(x, m);
    events := Overshoot(provider, p, k, m, now, w, x, n, d);
  }

  lemma Overshoot(provider: string, p: Policy, k: nat, m: real, now: int, w: Window, x: real, n: nat, d: real)
    returns (events: seq<Event>)
    requires k >= 1 && m > 0.0 && !Text.Blank(provider) && Roomy(p, w, x) && Times(n, d) == x && 0.0 <= d <= m
    ensures Disciplined(events, provider, p, k, m) && forall i :: 0 <= i < |events| ==> events[i].at == now
    ensures Spend(Run(events), provider, p.currency, w, now) == x + Times(k, m)
  {
    hide Reached, Roomy, Text.Blank;
    events := SpendUp(provider, p, k, m, now, w, n, d);
    var pending;
    events, pending := AdmitTogether(events, provider, p, k, m, now, n, w, x, k);
    events := SettleTogether(events, provider, p, k, m, now, n + k, pending, x, k);
    WhatIsReached(events, provider, p, k, m, now, n + k, x + Times(k, m), w);
  }

  lemma WhatIsReached(events: seq<Event>, provider: string, p: Policy, k: nat, m: real, now: int, used: nat, total: real, w: Window)
    requires Reached(events, provider, p, k, m, now, used, {}, total)
    ensures Disciplined(events, provider, p, k, m) && forall i :: 0 <= i < |events| ==> events[i].at == now
    ensures Spend(Run(events), provider, p.currency, w, now) == total
  {
    hide Spend, Run, Disciplined;
  }
}
