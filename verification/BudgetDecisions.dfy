// When a check is admitted, told from the rows (internal/ledger/budget.go:36-127).
module BudgetDecisions {
  import opened Basics
  import opened Sums
  import opened Text
  import opened Budget

  // ----- Which rows count in a window -----

  function Milliseconds(w: Window): int {
    if w == FiveHour then 18_000_000 else 604_800_000
  }

  // A row counts for its provider, or for every provider if it has no scope, for
  // as long as the window lasts, unless the window was reset since.
  predicate Counts(t: Tables, c: Charge, provider: string, currency: string, w: Window, now: int) {
    && c.currency == currency && (c.provider == provider || c.provider == "")
    && c.at <= now <= c.at + Milliseconds(w)
    && ((provider, w) in t.resets ==> t.resets[(provider, w)] < c.at || t.resets[(provider, w)] < now - Milliseconds(w))
  }

  lemma CountsMeans(t: Tables, c: Charge, provider: string, currency: string, w: Window, now: int)
    ensures Counts(t, c, provider, currency, w, now) <==> InWindow(t, c, provider, currency, w, now)
  {
  }

  function Counted(t: Tables, provider: string, currency: string, w: Window, now: int): map<string, real> {
    map id | id in t.charges && Counts(t, t.charges[id], provider, currency, w, now) :: t.charges[id].amount
  }

  lemma SpendMeans(t: Tables, provider: string, currency: string, w: Window, now: int)
    ensures Spend(t, provider, currency, w, now) == Total(Counted(t, provider, currency, w, now))
  {
    hide Total, InWindow, Counts;
    forall id | id in t.charges ensures Counts(t, t.charges[id], provider, currency, w, now) <==> InWindow(t, t.charges[id], provider, currency, w, now) {
      CountsMeans(t, t.charges[id], provider, currency, w, now);
    }
    assert Charged(t, provider, currency, w, now) == Counted(t, provider, currency, w, now);
  }

  // A reset leaves nothing of the past in the window.
  lemma ResetClears(t: Tables, provider: string, currency: string, w: Window, now: int)
    ensures Spend(Apply(t, Reset(provider, w), now), provider, currency, w, now) == 0.0
  {
    hide Total;
    var after := Apply(t, Reset(provider, w), now);
    SpendMeans(after, provider, currency, w, now);
    assert Counted(after, provider, currency, w, now) == map[];
    NothingSpent();
  }

  lemma NothingSpent()
    ensures Total<string>(map[]) == 0.0
  {
  }

  // ----- The decision -----

  ghost predicate UnknownCounts(t: Tables, provider: string, p: Policy, now: int) {
    exists id, w: Window :: id in t.charges && t.charges[id].state == Unknown && Limit(p, w) > 0.0
                            && Counts(t, t.charges[id], provider, p.currency, w, now)
  }

  ghost predicate Reaches(t: Tables, provider: string, p: Policy, share: real, now: int) {
    exists w: Window :: Limit(p, w) > 0.0 && Total(Counted(t, provider, p.currency, w, now)) >= share * Limit(p, w)
  }

  lemma UnknownMeans(t: Tables, provider: string, p: Policy, now: int)
    ensures UnknownIn(t, provider, p, FiveHour, now) || UnknownIn(t, provider, p, SevenDay, now) <==> UnknownCounts(t, provider, p, now)
  {
    hide InWindow, Counts, Limit;
    if UnknownCounts(t, provider, p, now) {
      var id, w: Window :| id in t.charges && t.charges[id].state == Unknown && Limit(p, w) > 0.0
                           && Counts(t, t.charges[id], provider, p.currency, w, now);
      CountsMeans(t, t.charges[id], provider, p.currency, w, now);
      assert UnknownIn(t, provider, p, w, now);
      assert w == FiveHour || w == SevenDay;
    }
    UnknownInWindow(t, provider, p, FiveHour, now);
    UnknownInWindow(t, provider, p, SevenDay, now);
  }

  lemma UnknownInWindow(t: Tables, provider: string, p: Policy, w: Window, now: int)
    ensures UnknownIn(t, provider, p, w, now) ==> UnknownCounts(t, provider, p, now)
  {
    hide InWindow, Counts, Limit;
    if UnknownIn(t, provider, p, w, now) {
      var id :| id in t.charges && t.charges[id].state == Unknown && InWindow(t, t.charges[id], provider, p.currency, w, now);
      CountsMeans(t, t.charges[id], provider, p.currency, w, now);
    }
  }

  lemma OverMeans(t: Tables, provider: string, p: Policy, now: int)
    ensures Over(t, provider, p, FiveHour, now) || Over(t, provider, p, SevenDay, now) <==> Reaches(t, provider, p, 1.0, now)
  {
    hide Spend, Counted, Total;
    SpendMeans(t, provider, p.currency, FiveHour, now);
    SpendMeans(t, provider, p.currency, SevenDay, now);
  }

  lemma WarnsMeans(t: Tables, provider: string, p: Policy, now: int)
    requires ValidPolicy(p) && p != NO_POLICY
    ensures Warns(t, provider, p, FiveHour, now) || Warns(t, provider, p, SevenDay, now)
            <==> Reaches(t, provider, p, p.alertThreshold, now)
  {
    hide Spend, Counted, Total;
    SpendMeans(t, provider, p.currency, FiveHour, now);
    SpendMeans(t, provider, p.currency, SevenDay, now);
  }

  // A share of the limit is reached before the limit.
  lemma ReachesLess(t: Tables, provider: string, p: Policy, now: int)
    requires ValidPolicy(p) && p != NO_POLICY && Reaches(t, provider, p, 1.0, now)
    ensures Reaches(t, provider, p, p.alertThreshold, now)
  {
    hide Counted, Total;
    var w: Window :| Limit(p, w) > 0.0 && Total(Counted(t, provider, p.currency, w, now)) >= 1.0 * Limit(p, w);
    Share(p.alertThreshold, Limit(p, w));
  }

  lemma Share(share: real, limit: real)
    requires share <= 1.0 && limit > 0.0
    ensures share * limit <= 1.0 * limit
  {
  }

  // Main result: exactly when a request is admitted, and what is then recorded.
  lemma AdmittedIff(t: Tables, id: string, provider: string, p: Policy, confirmed: bool, now: int)
    ensures var after := Apply(t, Check(id, provider, p, confirmed), now);
            && (after != t <==>
                  && id != "" && !Blank(provider) && ValidPolicy(p) && id !in t.charges
                  && !UnknownCounts(t, provider, p, now)
                  && (p.mode == Hard ==> !Reaches(t, provider, p, 1.0, now))
                  && (p.mode == Soft && !confirmed ==> !Reaches(t, provider, p, p.alertThreshold, now)))
            && (after != t ==> after == t.(charges := t.charges[id := Charge(now, provider, p.currency, 0.0, Pending)]))
  {
    UnknownMeans(t, provider, p, now);
    OverMeans(t, provider, p, now);
    if ValidPolicy(p) && p != NO_POLICY {
      WarnsMeans(t, provider, p, now);
      if Reaches(t, provider, p, 1.0, now) { ReachesLess(t, provider, p, now); }
    }
    hide UnknownIn, Over, Warns, UnknownCounts, Reaches, Blank, ByteLength;
    var after := Apply(t, Check(id, provider, p, confirmed), now);
    if Decide(t, id, provider, p, confirmed, now).None? {
      assert id in after.charges;
    }
  }

  // What refuses a request, in the order in which it is told.
  lemma RefusalMeans(t: Tables, id: string, provider: string, p: Policy, confirmed: bool, now: int)
    requires Decide(t, id, provider, p, confirmed, now).Some?
    ensures var refusal := Decide(t, id, provider, p, confirmed, now).value;
            var invalid, unknown := id == "" || Blank(provider) || !ValidPolicy(p), UnknownCounts(t, provider, p, now);
            && (refusal == InvalidPolicy <==> invalid)
            && (refusal == UsageUnknown <==> !invalid && unknown)
            && (refusal == HardLimit <==> !invalid && !unknown && p.mode == Hard && Reaches(t, provider, p, 1.0, now))
            && (refusal == ConfirmationRequired <==>
                  !invalid && !unknown && p.mode == Soft && !confirmed && Reaches(t, provider, p, p.alertThreshold, now))
            && (refusal == DuplicateRequest ==> id in t.charges)
  {
    UnknownMeans(t, provider, p, now);
    OverMeans(t, provider, p, now);
    if ValidPolicy(p) && p != NO_POLICY {
      WarnsMeans(t, provider, p, now);
      if Reaches(t, provider, p, 1.0, now) { ReachesLess(t, provider, p, now); }
    }
    hide UnknownIn, Over, Warns, UnknownCounts, Reaches, Blank, ByteLength;
  }

  // What was charged in the last n milliseconds, if nothing was reset.
  function ChargedWithin(t: Tables, provider: string, currency: string, n: int, now: int): map<string, real> {
    map id | id in t.charges && t.charges[id].currency == currency
             && (t.charges[id].provider == provider || t.charges[id].provider == "")
             && now - n <= t.charges[id].at <= now
           :: t.charges[id].amount
  }

  // In hard mode neither limit lets a request through once its own hours are
  // spent, whatever the other limit is.
  lemma HardLimitsHold(t: Tables, id: string, provider: string, p: Policy, confirmed: bool, now: int)
    requires p.mode == Hard && (provider, FiveHour) !in t.resets && (provider, SevenDay) !in t.resets
    requires || (p.fiveHourLimit > 0.0 && Total(ChargedWithin(t, provider, p.currency, 18_000_000, now)) >= p.fiveHourLimit)
             || (p.weeklyLimit > 0.0 && Total(ChargedWithin(t, provider, p.currency, 604_800_000, now)) >= p.weeklyLimit)
    ensures Apply(t, Check(id, provider, p, confirmed), now) == t
  {
    AdmittedIff(t, id, provider, p, confirmed, now);
    hide Total, UnknownCounts, Apply, ValidPolicy, Blank;
    assert Counted(t, provider, p.currency, FiveHour, now) == ChargedWithin(t, provider, p.currency, 18_000_000, now);
    assert Counted(t, provider, p.currency, SevenDay, now) == ChargedWithin(t, provider, p.currency, 604_800_000, now);
    hide Counted, ChargedWithin;
    assert Limit(p, FiveHour) == p.fiveHourLimit && Limit(p, SevenDay) == p.weeklyLimit;
  }

  // ----- The end of a reservation -----

  // A release takes back a pending row of a proper request, and nothing else.
  lemma ReleaseMeans(t: Tables, id: string, now: int)
    ensures var after := Apply(t, Release(id), now);
            && after.resets == t.resets
            && (forall k :: k in after.charges <==>
                  k in t.charges && !(k == id && t.charges[id].state == Pending && exists i :: 0 <= i < |id| && !IsSpace(id[i])))
            && (forall k :: k in after.charges ==> after.charges[k] == t.charges[k])
  {
    assert Blank(id) <==> !exists i :: 0 <= i < |id| && !IsSpace(id[i]);
    hide Blank, IsSpace;
  }

  // A restart makes unknown what was pending, so it blocks, and touches nothing else.
  lemma RestartMeans(t: Tables, now: int)
    ensures var after := Apply(t, Restart, now);
            && after.resets == t.resets && after.charges.Keys == t.charges.Keys
            && forall id :: id in t.charges ==>
                 && after.charges[id] == t.charges[id].(state := after.charges[id].state)
                 && (t.charges[id].state == Pending <==> after.charges[id].state != t.charges[id].state)
                 && after.charges[id].state != Pending
  {
  }

  // ----- Policies -----

  lemma PolicyMeans(p: Policy)
    requires ValidPolicy(p) && p != NO_POLICY
    ensures 0.0 < p.alertThreshold <= 1.0 && p.mode != Unset && p.currency != "" && |p.currency| <= 3
    ensures (exists w: Window :: Limit(p, w) > 0.0) && forall w: Window :: Limit(p, w) >= 0.0
    ensures forall i :: 0 <= i < |p.currency| ==> !('a' <= p.currency[i] <= 'z')
  {
    assert Limit(p, FiveHour) > 0.0 || Limit(p, SevenDay) > 0.0;
    LengthInBytes(p.currency);
    forall i | 0 <= i < |p.currency| ensures !('a' <= p.currency[i] <= 'z') { assert p.currency[i] in p.currency; }
  }

  lemma {:induction false} LengthInBytes(s: string)
    ensures |s| <= ByteLength(s) && (s == "" ==> ByteLength(s) == 0)
  {
    if s != "" {
      LengthInBytes(s[1..]);
    }
  }

  lemma UpperCaseCodesAreValid(a: char, b: char, c: char, fiveHour: real, weekly: real, threshold: real, mode: Mode)
    requires 'A' <= a <= 'Z' && 'A' <= b <= 'Z' && 'A' <= c <= 'Z' && mode != Unset && 0.0 < threshold <= 1.0
    requires fiveHour >= 0.0 && weekly >= 0.0 && fiveHour + weekly > 0.0
    ensures ValidPolicy(Policy([a, b, c], fiveHour, weekly, threshold, mode)) && ValidPolicy(NO_POLICY)
  {
    PushLength(c, "");
    PushLength(b, [c]);
    PushLength(a, [b, c]);
    assert [a, b, c] == [a] + [b, c] && [b, c] == [b] + [c] && [c] + "" == [c];
    hide ByteLength, CharBytes;
  }

  lemma PushLength(c: char, s: string)
    requires 'A' <= c <= 'Z'
    ensures ByteLength([c] + s) == 1 + ByteLength(s) && ByteLength("") == 0
  {
    assert ([c] + s)[1..] == s;
  }

  // ----- Unknown usage over runs -----

  // A step that may end the unknown usage of row id, or hide it from a window.
  predicate Touches(e: Event, id: string, provider: string, w: Window) {
    (e.action.Settle? && e.action.id == id) || e.action == Reset(provider, w)
  }

  ghost predicate StillUnknown(t: Tables, id: string, provider: string, currency: string, w: Window, at: int) {
    && id in t.charges && t.charges[id].state == Unknown && t.charges[id].at == at && t.charges[id].currency == currency
    && (t.charges[id].provider == provider || t.charges[id].provider == "")
    && ((provider, w) in t.resets ==> t.resets[(provider, w)] < at)
  }

  lemma StepKeepsUnknown(t: Tables, e: Event, id: string, provider: string, currency: string, w: Window, at: int)
    requires StillUnknown(t, id, provider, currency, w, at) && !Touches(e, id, provider, w)
    ensures StillUnknown(Apply(t, e.action, e.at), id, provider, currency, w, at)
  {
    hide UnknownIn, Over, Warns, Blank, ValidPolicy;
  }

  lemma {:induction false} RunKeepsUnknown(events: seq<Event>, n: nat, id: string, provider: string, currency: string, w: Window, at: int)
    requires n <= |events| && StillUnknown(Run(events[..n]), id, provider, currency, w, at)
    requires forall k :: n <= k < |events| ==> !Touches(events[k], id, provider, w)
    ensures StillUnknown(Run(events), id, provider, currency, w, at)
    decreases |events|
  {
    hide StillUnknown, Apply;
    if n == |events| {
      assert events[..n] == events;
    } else {
      var m := |events| - 1;
      assert events[..m][..n] == events[..n];
      RunKeepsUnknown(events[..m], n, id, provider, currency, w, at);
      StepKeepsUnknown(Run(events[..m]), events[m], id, provider, currency, w, at);
    }
  }

  // After a request was settled without a cost no check of its provider and
  // currency is admitted, confirmed or not, until the window ends or is reset.
  lemma UnknownUsageBlocks(events: seq<Event>, n: nat, id: string, provider: string, p: Policy, w: Window, request: string,
                           confirmed: bool, now: int)
    requires n < |events| && events[n].action == Settle(id, None) && id in Run(events[..n]).charges
    requires var c := Run(events[..n]).charges[id]; c.currency == p.currency && (c.provider == provider || c.provider == "")
    requires (provider, w) in Run(events[..n]).resets ==> Run(events[..n]).resets[(provider, w)] < events[n].at
    requires forall k :: n < k < |events| ==> !Touches(events[k], id, provider, w)
    requires Limit(p, w) > 0.0 && events[n].at <= now <= events[n].at + Milliseconds(w)
    ensures Apply(Run(events), Check(request, provider, p, confirmed), now) == Run(events)
  {
    var at := events[n].at;
    assert events[..n + 1][..n] == events[..n] && events[..n + 1][n] == events[n];
    assert Run(events[..n + 1]) == Apply(Run(events[..n]), events[n].action, at);
    SettleIsUnknown(Run(events[..n]), id, provider, p.currency, w, at);
    RunKeepsUnknown(events, n + 1, id, provider, p.currency, w, at);
    StillUnknownBlocks(Run(events), id, provider, p, w, at, request, confirmed, now);
    hide *;
  }

  lemma SettleIsUnknown(t: Tables, id: string, provider: string, currency: string, w: Window, at: int)
    requires id in t.charges && t.charges[id].currency == currency && (t.charges[id].provider == provider || t.charges[id].provider == "")
    requires (provider, w) in t.resets ==> t.resets[(provider, w)] < at
    ensures StillUnknown(Apply(t, Settle(id, None), at), id, provider, currency, w, at)
  {
  }

  lemma StillUnknownBlocks(t: Tables, id: string, provider: string, p: Policy, w: Window, at: int, request: string, confirmed: bool, now: int)
    requires StillUnknown(t, id, provider, p.currency, w, at) && Limit(p, w) > 0.0 && at <= now <= at + Milliseconds(w)
    ensures Apply(t, Check(request, provider, p, confirmed), now) == t
  {
    assert Counts(t, t.charges[id], provider, p.currency, w, now);
    hide Counts, Apply, Milliseconds;
    assert UnknownCounts(t, provider, p, now);
    hide UnknownCounts;
    AdmittedIff(t, request, provider, p, confirmed, now);
  }
}
