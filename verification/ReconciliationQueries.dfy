// internal/ledger/reconcile.go:244-419: ReconciliationStats runs six GROUP BY
// queries over the materialized tables and merges their rows into one report
// per currency.
module ReconciliationQueries {
  import opened Basics
  import opened Sums
  import opened ReconciliationSchema
  import opened ReconciliationReport
  import opened ReconciliationMeaning

  type Reports = map<string, Reconciliation>

  // The accumulator of a currency, created empty on first use.
  function Get(data: Reports, c: string): Reconciliation {
    if c in data then data[c] else EMPTY_REPORT
  }

  function RequestCurrencies(t: Tables): set<string> {
    set id | id in t.requests :: t.requests[id].currency
  }

  function LineCurrencies(t: Tables): set<string> {
    set id | id in t.statements :: t.statements[id].line.currency
  }

  function IntervalCurrencies(t: Tables): set<string> {
    set b | b in t.intervals :: t.intervals[b].currency
  }

  lemma CurrenciesAreListed(t: Tables, c: string, from: int, to: int)
    ensures Requests(t, c, from, to) != {} ==> c in RequestCurrencies(t)
    ensures MatchedRequests(t, c, from, to) != {} ==> c in RequestCurrencies(t)
    ensures Lines(t, c, from, to) != {} ==> c in LineCurrencies(t)
    ensures PartialLines(t, c, from, to) != {} ==> c in LineCurrencies(t)
    ensures Intervals(t, c, from, to) != {} ==> c in IntervalCurrencies(t)
  {
    if id: string :| id in Requests(t, c, from, to) { assert t.requests[id].currency == c; }
    if id: string :| id in MatchedRequests(t, c, from, to) { assert t.requests[id].currency == c; }
    if id: nat :| id in Lines(t, c, from, to) { assert t.statements[id].line.currency == c; }
    if id: nat :| id in PartialLines(t, c, from, to) { assert t.statements[id].line.currency == c; }
    if b: nat :| b in Intervals(t, c, from, to) { assert t.intervals[b].currency == c; }
  }

  method QueryRequests(t: Tables, from: int, to: int, before: Reports) returns (data: Reports)
    ensures forall c :: c in data <==> c in before || Requests(t, c, from, to) != {}
    ensures forall c :: Get(data, c) == if Requests(t, c, from, to) != {} then AddRequests(Get(before, c), t, c, from, to) else Get(before, c)
  {
    hide Total, Requests, Lines, PartialLines, MatchedRequests, Intervals, ChargesOf, Costs, Unknown;
    data := before;
    var groups := set c | c in RequestCurrencies(t) && Requests(t, c, from, to) != {};
    var rest := groups;
    while rest != {}
      invariant rest <= groups
      invariant forall c :: c in data <==> c in before || c in groups - rest
      invariant forall c :: Get(data, c) == if c in groups - rest then AddRequests(Get(before, c), t, c, from, to) else Get(before, c)
    {
      var c :| c in rest;
      var ids := Requests(t, c, from, to);
      var cost := SumRows(Costs(t, ids));
      data := data[c := Get(data, c).(
        localEstimated := cost, unknownCostRequests := |Unknown(t, ids)|, missingStatementRequests := |Missing(t, ids)|,
        tokenizerComparisons := |Compared(t, ids)|, tokenizerMismatches := |Mismatched(t, ids)|)];
      rest := rest - {c};
    }
    forall c ensures Requests(t, c, from, to) != {} <==> c in groups {
      CurrenciesAreListed(t, c, from, to);
    }
  }

  method QueryLines(t: Tables, from: int, to: int, before: Reports) returns (data: Reports)
    ensures forall c :: c in data <==> c in before || Lines(t, c, from, to) != {}
    ensures forall c :: Get(data, c) == if Lines(t, c, from, to) != {} then AddLines(Get(before, c), t, c, from, to) else Get(before, c)
  {
    hide Total, Requests, Lines, PartialLines, MatchedRequests, Intervals, ChargesOf, Costs, Unknown;
    data := before;
    var groups := set c | c in LineCurrencies(t) && Lines(t, c, from, to) != {};
    var rest := groups;
    while rest != {}
      invariant rest <= groups
      invariant forall c :: c in data <==> c in before || c in groups - rest
      invariant forall c :: Get(data, c) == if c in groups - rest then AddLines(Get(before, c), t, c, from, to) else Get(before, c)
    {
      var c :| c in rest;
      var ids := Lines(t, c, from, to);
      var amount := SumRows(Amounts(t, ids));
      data := data[c := Get(data, c).(
        supplierStatement := amount, statementLines := |ids|,
        matchedLines := |WithStatus(t, ids, true)|, unmatchedLines := |WithStatus(t, ids, false)|)];
      rest := rest - {c};
    }
    forall c ensures Lines(t, c, from, to) != {} <==> c in groups {
      CurrenciesAreListed(t, c, from, to);
    }
  }

  method QueryPartialLines(t: Tables, from: int, to: int, before: Reports) returns (data: Reports)
    ensures forall c :: c in data <==> c in before || PartialLines(t, c, from, to) != {}
    ensures forall c :: Get(data, c) == if PartialLines(t, c, from, to) != {} then AddPartialLines(Get(before, c), t, c, from, to) else Get(before, c)
  {
    hide Total, Requests, Lines, PartialLines, MatchedRequests, Intervals, ChargesOf, Costs, Unknown;
    data := before;
    var groups := set c | c in LineCurrencies(t) && PartialLines(t, c, from, to) != {};
    var rest := groups;
    while rest != {}
      invariant rest <= groups
      invariant forall c :: c in data <==> c in before || c in groups - rest
      invariant forall c :: Get(data, c) == if c in groups - rest then AddPartialLines(Get(before, c), t, c, from, to) else Get(before, c)
    {
      var c :| c in rest;
      data := data[c := Get(data, c).(partialStatementLines := |PartialLines(t, c, from, to)|)];
      rest := rest - {c};
    }
    forall c ensures PartialLines(t, c, from, to) != {} <==> c in groups {
      CurrenciesAreListed(t, c, from, to);
    }
  }

  // The inner query of the join: SUM(amount) ... GROUP BY request_id.
  method SumCharges(t: Tables, ids: set<string>, from: int, to: int) returns (charges: map<string, real>)
    ensures charges == Charges(t, ids, from, to)
  {
    charges := map[];
    var rest := ids;
    while rest != {}
      invariant rest <= ids && charges.Keys == ids - rest
      invariant forall id :: id in charges ==> charges[id] == Total(ChargesOf(t, id, from, to))
    {
      hide Total;
      var id :| id in rest;
      var charge := SumRows(ChargesOf(t, id, from, to));
      charges := charges[id := charge];
      rest := rest - {id};
    }
  }

  method QueryMatched(t: Tables, from: int, to: int, before: Reports) returns (data: Reports)
    ensures forall c :: c in data <==> c in before || MatchedRequests(t, c, from, to) != {}
    ensures forall c :: Get(data, c) == if MatchedRequests(t, c, from, to) != {} then AddMatched(Get(before, c), t, c, from, to) else Get(before, c)
  {
    hide Total, Requests, Lines, PartialLines, MatchedRequests, Intervals, ChargesOf, Costs, Unknown;
    data := before;
    var groups := set c | c in RequestCurrencies(t) && MatchedRequests(t, c, from, to) != {};
    var rest := groups;
    while rest != {}
      invariant rest <= groups
      invariant forall c :: c in data <==> c in before || c in groups - rest
      invariant forall c :: Get(data, c) == if c in groups - rest then AddMatched(Get(before, c), t, c, from, to) else Get(before, c)
    {
      var c :| c in rest;
      var ids := MatchedRequests(t, c, from, to);
      var local := SumRows(Costs(t, ids));
      var charges := SumCharges(t, ids, from, to);
      var supplier := SumRows(charges);
      var x := Get(data, c).(matchedLocalEstimated := local);
      if |Unknown(t, ids)| == 0 {
        x := x.(matchedDifference := Some(supplier - local));
      }
      data := data[c := x];
      rest := rest - {c};
    }
    forall c ensures MatchedRequests(t, c, from, to) != {} <==> c in groups {
      CurrenciesAreListed(t, c, from, to);
    }
  }

  method QueryBalances(t: Tables, from: int, to: int, before: Reports) returns (data: Reports)
    ensures forall c :: c in data <==> c in before || Intervals(t, c, from, to) != {}
    ensures forall c :: Get(data, c) == if Intervals(t, c, from, to) != {} then AddBalances(Get(before, c), t, c, from, to) else Get(before, c)
  {
    hide Total, Requests, Lines, PartialLines, MatchedRequests, Intervals, ChargesOf, Costs, Unknown;
    data := before;
    var groups := set c | c in IntervalCurrencies(t) && Intervals(t, c, from, to) != {};
    var rest := groups;
    while rest != {}
      invariant rest <= groups
      invariant forall c :: c in data <==> c in before || c in groups - rest
      invariant forall c :: Get(data, c) == if c in groups - rest then AddBalances(Get(before, c), t, c, from, to) else Get(before, c)
    {
      var c :| c in rest;
      var ids := Intervals(t, c, from, to);
      var change := SumRows(NetChanges(t, ids));
      var estimated := SumRows(Estimates(t, ids));
      var unknown := SumRows(UnknownCounts(t, ids));
      var x := Get(data, c).(balanceNetChange := Some(change));
      if unknown == 0.0 {
        x := x.(unattributedBalanceDelta := Some(change + estimated));
      }
      data := data[c := x];
      rest := rest - {c};
    }
    forall c ensures Intervals(t, c, from, to) != {} <==> c in groups {
      CurrenciesAreListed(t, c, from, to);
    }
  }

  // A currency that a query does not select keeps the zero values.
  lemma NothingSelected(t: Tables, c: string, from: int, to: int, x: Reconciliation)
    ensures Requests(t, c, from, to) == {} ==> AddRequests(EMPTY_REPORT, t, c, from, to) == EMPTY_REPORT
    ensures Lines(t, c, from, to) == {} && x.supplierStatement == 0.0 && x.statementLines == x.matchedLines == x.unmatchedLines == 0
            ==> AddLines(x, t, c, from, to) == x
    ensures PartialLines(t, c, from, to) == {} && x.partialStatementLines == 0 ==> AddPartialLines(x, t, c, from, to) == x
  {
    assert Costs(t, {}) == map[] && Amounts(t, {}) == map[];
    assert Unknown(t, {}) == Missing(t, {}) == Compared(t, {}) == Mismatched(t, {}) == {};
    assert WithStatus(t, {}, true) == WithStatus(t, {}, false) == {};
  }

  method RunQueries(t: Tables, from: int, to: int) returns (data: Reports)
    ensures forall c :: Get(data, c) == Merged(t, c, from, to)
    ensures forall c :: c in data <==>
              || Requests(t, c, from, to) != {} || Lines(t, c, from, to) != {} || PartialLines(t, c, from, to) != {}
              || MatchedRequests(t, c, from, to) != {} || Intervals(t, c, from, to) != {}
  {
    hide Total, Requests, Lines, PartialLines, MatchedRequests, Intervals;
    data := QueryRequests(t, from, to, map[]);
    data := QueryLines(t, from, to, data);
    if from > 0 || to > 0 {
      data := QueryPartialLines(t, from, to, data);
    }
    forall c ensures Get(data, c) == AddPartialLines(AddLines(AddRequests(EMPTY_REPORT,
                       t, c, from, to), t, c, from, to), t, c, from, to)
    {
      if from <= 0 && to <= 0 { NoPartialLines(t, c, from, to); }
      NothingSelected(t, c, from, to, AddRequests(EMPTY_REPORT, t, c, from, to));
    }
    data := QueryMatched(t, from, to, data);
    data := QueryBalances(t, from, to, data);
  }

  lemma NoPartialLines(t: Tables, c: string, from: int, to: int)
    requires from <= 0 && to <= 0
    ensures PartialLines(t, c, from, to) == {}
  {
  }

  // The final pass decides the coverage of every currency.
  method ConcludeAll(data: Reports) returns (out: Reports)
    ensures out == map c | c in data :: Conclude(data[c])
  {
    out := map[];
    var rest := data.Keys;
    while rest != {}
      invariant rest <= data.Keys && out.Keys == data.Keys - rest
      invariant forall c :: c in out ==> out[c] == Conclude(data[c])
    {
      var c :| c in rest;
      var x := data[c].(coverage := Partial);
      if x.statementLines == 0 && x.partialStatementLines == 0 {
        x := x.(coverage := NoStatement);
      }
      if x.statementLines > 0 && x.partialStatementLines == 0 && x.unmatchedLines == 0
         && x.missingStatementRequests == 0 && x.unknownCostRequests == 0 {
        x := x.(coverage := Complete, difference := Some(x.supplierStatement - x.localEstimated));
      }
      out := out[c := x];
      rest := rest - {c};
    }
  }

  // ----- The order of the result -----

  // The order of Go strings.
  predicate Before(a: string, b: string) {
    b != "" && (a == "" || a[0] < b[0] || (a[0] == b[0] && Before(a[1..], b[1..])))
  }

  lemma {:induction false} BeforeIsTotal(a: string, b: string)
    ensures a == b || Before(a, b) || Before(b, a)
  {
    if a != "" && b != "" && a[0] == b[0] {
      BeforeIsTotal(a[1..], b[1..]);
      assert a == [a[0]] + a[1..] && b == [b[0]] + b[1..];
    }
  }

  lemma {:induction false} BeforeIsTransitive(a: string, b: string, c: string)
    requires Before(a, b) && Before(b, c)
    ensures Before(a, c)
  {
    if a != "" && a[0] == b[0] == c[0] {
      BeforeIsTransitive(a[1..], b[1..], c[1..]);
    }
  }

  method LeastCurrency(rest: set<string>) returns (least: string)
    requires rest != {}
    ensures least in rest && forall d :: d in rest ==> d == least || Before(least, d)
  {
    hide Before;
    least :| least in rest;
    var left := rest - {least};
    while left != {}
      invariant left <= rest && least in rest - left
      invariant forall d :: d in rest - left ==> d == least || Before(least, d)
    {
      var c :| c in left;
      BeforeIsTotal(least, c);
      if Before(c, least) {
        forall d | d in rest - left ensures d == c || Before(c, d) {
          if d != least { BeforeIsTransitive(c, least, d); }
        }
        least := c;
      }
      left := left - {c};
    }
  }

  ghost predicate Sorted(out: seq<(string, Reconciliation)>) {
    forall i, j :: 0 <= i < j < |out| ==> Before(out[i].0, out[j].0)
  }

  ghost predicate Listed(out: seq<(string, Reconciliation)>, c: string) {
    exists i :: 0 <= i < |out| && out[i].0 == c
  }

  lemma NothingListed()
    ensures forall c :: !Listed([], c)
  {
  }

  lemma ListedAfter(out: seq<(string, Reconciliation)>, row: (string, Reconciliation), c: string)
    ensures Listed(out + [row], c) <==> Listed(out, c) || row.0 == c
  {
    if Listed(out, c) {
      var i :| 0 <= i < |out| && out[i].0 == c;
      assert (out + [row])[i].0 == c;
    }
    if row.0 == c { assert (out + [row])[|out|].0 == c; }
  }

  // One row per currency, in order.
  method SortReports(data: Reports) returns (out: seq<(string, Reconciliation)>)
    ensures Sorted(out)
    ensures forall i :: 0 <= i < |out| ==> out[i].0 in data && out[i].1 == data[out[i].0]
    ensures forall c :: c in data <==> Listed(out, c)
  {
    hide Before, Listed;
    out := [];
    NothingListed();
    var rest := data.Keys;
    while rest != {}
      invariant rest <= data.Keys && Sorted(out)
      invariant forall i, c :: 0 <= i < |out| && c in rest ==> Before(out[i].0, c)
      invariant forall i :: 0 <= i < |out| ==> out[i].0 in data && out[i].1 == data[out[i].0]
      invariant forall c :: c in data && c !in rest <==> Listed(out, c)
    {
      var c := LeastCurrency(rest);
      forall d ensures Listed(out + [(c, data[c])], d) <==> Listed(out, d) || c == d {
        ListedAfter(out, (c, data[c]), d);
      }
      out := out + [(c, data[c])];
      rest := rest - {c};
    }
  }

  method ReconciliationStats(t: Tables, snapshots: map<nat, Snapshot>, from: int, to: int)
    returns (r: Result<seq<(string, Reconciliation)>, string>)
    ensures r.Ok? <==> ValidPeriod(from, to)
    ensures r.Ok? ==> Sorted(r.value)
    ensures r.Ok? ==> forall c :: Reported(t, snapshots, c, from, to) <==> Listed(r.value, c)
    ensures r.Ok? ==> forall i :: 0 <= i < |r.value| ==> r.value[i].1 == Report(t, r.value[i].0, from, to)
    ensures r.Ok? ==> forall s, i | WellFormed(s) && t == Views(s) && 0 <= i < |r.value| ::
              var (c, x) := r.value[i];
              && x.statementLines == |InsideLines(s, c, from, to)| && x.partialStatementLines == |EdgeLines(s, c, from, to)|
              && x.unmatchedLines == |InsideLines(s, c, from, to) - Billed(s, InsideLines(s, c, from, to))|
  {
    hide Total, Requests, Lines, PartialLines, MatchedRequests, Intervals, Before, Reported, Report;
    if !ValidPeriod(from, to) {
      return Err("invalid reconciliation period");
    }
    var reports := ReportAll(t, snapshots, from, to);
    var out := SortReports(reports);
    forall s, i | WellFormed(s) && t == Views(s) && 0 <= i < |out|
      ensures out[i].1.statementLines == |InsideLines(s, out[i].0, from, to)|
      ensures out[i].1.partialStatementLines == |EdgeLines(s, out[i].0, from, to)|
      ensures out[i].1.unmatchedLines == |InsideLines(s, out[i].0, from, to) - Billed(s, InsideLines(s, out[i].0, from, to))|
    {
      LineFigures(s, out[i].0, from, to);
    }
    r := Ok(out);
  }

  method ReportAll(t: Tables, snapshots: map<nat, Snapshot>, from: int, to: int) returns (out: Reports)
    requires ValidPeriod(from, to)
    ensures forall c :: c in out <==> Reported(t, snapshots, c, from, to)
    ensures forall c :: c in out ==> out[c] == Report(t, c, from, to)
  {
    hide Total, Requests, Lines, PartialLines, MatchedRequests, Intervals, Merged, Conclude;
    var data := RunQueries(t, from, to);
    // A single balance observation keeps its currency visible.
    var seen := set b | b in snapshots && InPeriod(snapshots[b].observedAtMs, from, to) :: snapshots[b].currency;
    data := data + map c | c in seen && c !in data :: EMPTY_REPORT;
    forall c ensures c in seen <==> Observed(snapshots, c, from, to) != {} {
      if b: nat :| b in snapshots && InPeriod(snapshots[b].observedAtMs, from, to) && snapshots[b].currency == c {
        assert b in Observed(snapshots, c, from, to);
      }
    }
    assert forall c :: Get(data, c) == Merged(t, c, from, to);
    out := ConcludeAll(data);
    assert forall c :: c in out ==> out[c] == Conclude(Get(data, c));
  }
}
