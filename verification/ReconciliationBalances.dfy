// internal/ledger/reconcile.go:360-379: the balance intervals of a period
// telescope, whatever order snapshots and audits were inserted in.
module ReconciliationBalances {
  import opened Basics
  import opened Sums
  import opened ReconciliationSchema
  import opened ReconciliationReport

  // The snapshots of currency c inside the closed window of a period: an
  // interval is selected when both of its ends are in the window.
  function Window(snapshots: map<nat, Snapshot>, c: string, from: int, to: int): set<nat> {
    set b | b in snapshots && snapshots[b].currency == c
            && Contained(snapshots[b].observedAtMs, snapshots[b].observedAtMs, from, to)
  }

  lemma WindowMeans(snapshots: map<nat, Snapshot>, c: string, from: int, to: int, b: nat)
    requires b in snapshots && ValidPeriod(from, to)
    ensures var at := snapshots[b].observedAtMs;
            && (from == 0 && to == 0 ==> (b in Window(snapshots, c, from, to) <==> snapshots[b].currency == c))
            && (0 < from && to == 0 ==> (b in Window(snapshots, c, from, to) <==> snapshots[b].currency == c && from <= at))
            && (from == 0 && 0 < to ==> (b in Window(snapshots, c, from, to) <==> snapshots[b].currency == c && at <= to))
            && (0 < from < to ==> (b in Window(snapshots, c, from, to) <==> snapshots[b].currency == c && from <= at <= to))
  {
  }

  ghost predicate Earliest(snapshots: map<nat, Snapshot>, ids: set<nat>, first: nat) {
    && first in ids && first in snapshots
    && forall b :: b in ids && b in snapshots ==> snapshots[first].observedAtMs <= snapshots[b].observedAtMs
  }

  ghost predicate Latest(snapshots: map<nat, Snapshot>, ids: set<nat>, last: nat) {
    && last in ids && last in snapshots
    && forall b :: b in ids && b in snapshots ==> snapshots[b].observedAtMs <= snapshots[last].observedAtMs
  }

  // A run of consecutive snapshots of one currency.
  ghost predicate Consecutive(snapshots: map<nat, Snapshot>, c: string, ids: set<nat>) {
    && (forall b :: b in ids ==> b in snapshots && snapshots[b].currency == c)
    && (forall a, q, b | a in ids && b in ids && q in snapshots && snapshots[q].currency == c ::
          snapshots[a].observedAtMs <= snapshots[q].observedAtMs <= snapshots[b].observedAtMs ==> q in ids)
  }

  // ----- Audits of adjacent intervals -----

  lemma KnownCostsSplit(audits: map<string, Audit>, c: string, from: int, mid: int, to: int)
    requires from <= mid <= to
    ensures Total(KnownCosts(audits, c, from, to)) == Total(KnownCosts(audits, c, from, mid)) + Total(KnownCosts(audits, c, mid, to))
  {
    hide Total;
    TotalUnion(KnownCosts(audits, c, from, mid), KnownCosts(audits, c, mid, to));
    assert KnownCosts(audits, c, from, to) == KnownCosts(audits, c, from, mid) + KnownCosts(audits, c, mid, to);
  }

  lemma UnknownCostsSplit(audits: map<string, Audit>, c: string, from: int, mid: int, to: int)
    requires from <= mid <= to
    ensures |UnknownCosts(audits, c, from, to)| == |UnknownCosts(audits, c, from, mid)| + |UnknownCosts(audits, c, mid, to)|
  {
    assert UnknownCosts(audits, c, from, to) == UnknownCosts(audits, c, from, mid) + UnknownCosts(audits, c, mid, to);
  }

  // ----- Telescoping -----

  // The three sums over the intervals that end inside a run.
  ghost predicate SumsTelescope(s: Source, c: string, ids: set<nat>, first: nat, last: nat)
    requires first in s.snapshots && last in s.snapshots
  {
    var t := Views(s);
    var from, to := s.snapshots[first], s.snapshots[last];
    && Total(NetChanges(t, ids - {first})) == to.total - from.total
    && Total(Estimates(t, ids - {first})) == Total(KnownCosts(s.audits, c, from.observedAtMs, to.observedAtMs))
    && Total(UnknownCounts(t, ids - {first})) == |UnknownCosts(s.audits, c, from.observedAtMs, to.observedAtMs)| as real
  }

  lemma {:induction false} Telescopes(s: Source, c: string, ids: set<nat>, first: nat, last: nat)
    requires UniqueSnapshots(s.snapshots) && Consecutive(s.snapshots, c, ids)
    requires Earliest(s.snapshots, ids, first) && Latest(s.snapshots, ids, last)
    ensures SumsTelescope(s, c, ids, first, last)
    decreases |ids|
  {
    if first == last {
      OneSnapshot(s, c, ids, first);
    } else {
      var previous := PreviousInRun(s.snapshots, c, ids, first, last);
      Telescopes(s, c, ids - {last}, first, previous);
      ExtendRun(s, c, ids, first, previous, last);
    }
  }

  lemma OneSnapshot(s: Source, c: string, ids: set<nat>, only: nat)
    requires UniqueSnapshots(s.snapshots) && Consecutive(s.snapshots, c, ids)
    requires Earliest(s.snapshots, ids, only) && Latest(s.snapshots, ids, only)
    ensures SumsTelescope(s, c, ids, only, only)
  {
    assert forall b :: b in ids ==> s.snapshots[b].observedAtMs == s.snapshots[only].observedAtMs;
    assert ids - {only} == {};
    var at := s.snapshots[only].observedAtMs;
    assert KnownCosts(s.audits, c, at, at) == map[];
    assert UnknownCosts(s.audits, c, at, at) == {};
    assert NetChanges(Views(s), {}) == map[] && Estimates(Views(s), {}) == map[] && UnknownCounts(Views(s), {}) == map[];
  }

  lemma PreviousInRun(snapshots: map<nat, Snapshot>, c: string, ids: set<nat>, first: nat, last: nat) returns (previous: nat)
    requires UniqueSnapshots(snapshots) && Consecutive(snapshots, c, ids)
    requires Earliest(snapshots, ids, first) && Latest(snapshots, ids, last) && first != last
    ensures Previous(snapshots, last) == Some(previous)
    ensures Consecutive(snapshots, c, ids - {last})
    ensures Earliest(snapshots, ids - {last}, first) && Latest(snapshots, ids - {last}, previous)
  {
    PreviousExists(snapshots, last, first);
    previous := Previous(snapshots, last).value;
    assert previous in ids;
    forall b | b in ids - {last} ensures snapshots[b].observedAtMs <= snapshots[previous].observedAtMs {
      assert snapshots[b].observedAtMs != snapshots[last].observedAtMs;
    }
  }

  lemma ExtendRun(s: Source, c: string, ids: set<nat>, first: nat, previous: nat, last: nat)
    requires first in ids && last in ids && first != last && previous in ids
    requires last in s.snapshots && first in s.snapshots && previous in s.snapshots
    requires s.snapshots[last].currency == c && Previous(s.snapshots, last) == Some(previous)
    requires s.snapshots[first].observedAtMs <= s.snapshots[previous].observedAtMs <= s.snapshots[last].observedAtMs
    requires SumsTelescope(s, c, ids - {last}, first, previous)
    ensures SumsTelescope(s, c, ids, first, last)
  {
    hide Total, KnownCosts, UnknownCosts, Previous;
    var t := Views(s);
    var row := t.intervals[last];
    var shorter := ids - {last} - {first};
    assert row == IntervalBetween(s, Some(previous), last);
    var from, mid, to := s.snapshots[first].observedAtMs, s.snapshots[previous].observedAtMs, s.snapshots[last].observedAtMs;
    KnownCostsSplit(s.audits, c, from, mid, to);
    UnknownCostsSplit(s.audits, c, from, mid, to);
    TotalInsert(NetChanges(t, shorter), last, row.netChange.value);
    TotalInsert(Estimates(t, shorter), last, row.localEstimated);
    TotalInsert(UnknownCounts(t, shorter), last, row.unknownCostRequests as real);
    assert NetChanges(t, ids - {first}) == NetChanges(t, shorter)[last := row.netChange.value];
    assert Estimates(t, ids - {first}) == Estimates(t, shorter)[last := row.localEstimated];
    assert UnknownCounts(t, ids - {first}) == UnknownCounts(t, shorter)[last := row.unknownCostRequests as real];
  }

  // ----- The intervals of a period -----

  lemma IntervalEndsInWindow(s: Source, c: string, from: int, to: int, b: nat)
    requires b in Intervals(Views(s), c, from, to)
    ensures var previous := Previous(s.snapshots, b);
            && previous.Some? && IsPrevious(s.snapshots, b, previous.value)
            && b in Window(s.snapshots, c, from, to) && previous.value in Window(s.snapshots, c, from, to)
  {
    hide Total, KnownCosts, UnknownCosts, RequestView, StatementView;
    var previous := Previous(s.snapshots, b).value;
    assert IsPrevious(s.snapshots, b, previous);
  }

  // Every snapshot of the window but the first closes a selected interval.
  lemma IntervalsOfWindow(s: Source, c: string, from: int, to: int, first: nat)
    requires UniqueSnapshots(s.snapshots) && Earliest(s.snapshots, Window(s.snapshots, c, from, to), first)
    ensures Intervals(Views(s), c, from, to) == Window(s.snapshots, c, from, to) - {first}
  {
    hide Total, KnownCosts, UnknownCosts, RequestView, StatementView;
    var ids := Window(s.snapshots, c, from, to);
    forall b | b in ids - {first} ensures b in Intervals(Views(s), c, from, to) {
      assert s.snapshots[first].observedAtMs != s.snapshots[b].observedAtMs;
      PreviousExists(s.snapshots, b, first);
    }
    forall b | b in Intervals(Views(s), c, from, to) ensures b in ids - {first} {
      IntervalEndsInWindow(s, c, from, to, b);
    }
  }

  lemma NoIntervals(s: Source, c: string, from: int, to: int)
    requires Window(s.snapshots, c, from, to) == {}
    ensures Intervals(Views(s), c, from, to) == {}
  {
    hide *;
    if b: nat :| b in Intervals(Views(s), c, from, to) {
      IntervalEndsInWindow(s, c, from, to, b);
    }
  }

  lemma BalanceFields(t: Tables, c: string, from: int, to: int)
    ensures var x := Report(t, c, from, to);
            var ids := Intervals(t, c, from, to);
            if ids == {} then x.balanceNetChange.None? && x.unattributedBalanceDelta.None?
            else
              && x.balanceNetChange == Some(Total(NetChanges(t, ids)))
              && x.unattributedBalanceDelta ==
                 if Total(UnknownCounts(t, ids)) == 0.0 then Some(Total(NetChanges(t, ids)) + Total(Estimates(t, ids))) else None
  {
    hide Total, NetChanges, Estimates, UnknownCounts, Intervals, Requests, Lines, PartialLines, MatchedRequests;
  }

  // The reported balance change of a period with two snapshots or more is last
  // total minus first total, and the estimates added to it are the costs of all
  // audits of the currency between those snapshots.
  lemma BalanceTelescopes(s: Source, c: string, from: int, to: int, first: nat, last: nat)
    requires UniqueSnapshots(s.snapshots) && first != last
    requires Earliest(s.snapshots, Window(s.snapshots, c, from, to), first)
    requires Latest(s.snapshots, Window(s.snapshots, c, from, to), last)
    ensures var x := Report(Views(s), c, from, to);
            var start, end := s.snapshots[first].observedAtMs, s.snapshots[last].observedAtMs;
            var change := s.snapshots[last].total - s.snapshots[first].total;
            && x.balanceNetChange == Some(change)
            && x.unattributedBalanceDelta ==
               if UnknownCosts(s.audits, c, start, end) == {} then Some(change + Total(KnownCosts(s.audits, c, start, end))) else None
  {
    hide Total, KnownCosts, UnknownCosts, Views, Report, NetChanges, Estimates, UnknownCounts, Intervals;
    var ids := Window(s.snapshots, c, from, to);
    BalanceFields(Views(s), c, from, to);
    Telescopes(s, c, ids, first, last);
    IntervalsOfWindow(s, c, from, to, first);
    assert last in ids - {first};
  }

  // With fewer than two snapshots in the window no change is reported.
  lemma NoBalanceChange(s: Source, c: string, from: int, to: int)
    requires UniqueSnapshots(s.snapshots) && |Window(s.snapshots, c, from, to)| <= 1
    ensures Report(Views(s), c, from, to).balanceNetChange.None?
    ensures Report(Views(s), c, from, to).unattributedBalanceDelta.None?
  {
    hide Total, Views, Report;
    var ids := Window(s.snapshots, c, from, to);
    BalanceFields(Views(s), c, from, to);
    if ids == {} {
      NoIntervals(s, c, from, to);
    } else {
      var only :| only in ids;
      assert |ids - {only}| == 0;
      assert ids == {only};
      IntervalsOfWindow(s, c, from, to, only);
    }
  }
}
