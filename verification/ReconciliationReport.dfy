// internal/ledger/reconcile.go: ReconciliationStats reads only the
// materialized tables. Each GROUP BY query below selects the rows of one
// currency; the method merges the groups of six queries into one report.
module ReconciliationReport {
  import opened Basics
  import opened Sums
  import opened ReconciliationSchema

  datatype Coverage = Partial | NoStatement | Complete

  datatype Reconciliation = Reconciliation(
    coverage: Coverage,
    localEstimated: real,
    supplierStatement: real,
    difference: Option<real>,
    statementLines: int,
    partialStatementLines: int,
    matchedLines: int,
    unmatchedLines: int,
    missingStatementRequests: int,
    unknownCostRequests: int,
    matchedLocalEstimated: real,
    matchedDifference: Option<real>,
    tokenizerComparisons: int,
    tokenizerMismatches: int,
    balanceNetChange: Option<real>,
    unattributedBalanceDelta: Option<real>)

  const EMPTY_REPORT := Reconciliation(Partial, 0.0, 0.0, None, 0, 0, 0, 0, 0, 0, 0.0, None, 0, 0, None, None)

  // ----- WHERE clauses; a bound of zero is no bound -----

  predicate ValidPeriod(from: int, to: int) {
    from >= 0 && to >= 0 && (to > 0 ==> from < to)
  }

  predicate InPeriod(at: int, from: int, to: int) {
    (from > 0 ==> at >= from) && (to > 0 ==> at < to)
  }

  predicate Contained(start: int, end: int, from: int, to: int) {
    (from > 0 ==> start >= from) && (to > 0 ==> end <= to)
  }

  predicate Overlaps(start: int, end: int, from: int, to: int) {
    (from > 0 ==> end > from) && (to > 0 ==> start < to)
  }

  // ----- Row selections of the queries, for one currency c -----

  function Requests(t: Tables, c: string, from: int, to: int): set<string> {
    set id | id in t.requests && t.requests[id].currency == c && InPeriod(t.requests[id].timestampMs, from, to)
  }

  predicate ContainedLine(line: StatementLine, from: int, to: int) {
    Contained(line.periodStartMs, line.periodEndMs, from, to)
  }

  function Lines(t: Tables, c: string, from: int, to: int): set<nat> {
    set id | id in t.statements && t.statements[id].line.currency == c && ContainedLine(t.statements[id].line, from, to)
  }

  function PartialLines(t: Tables, c: string, from: int, to: int): set<nat> {
    if from > 0 || to > 0 then
      set id | id in t.statements && t.statements[id].line.currency == c
               && Overlaps(t.statements[id].line.periodStartMs, t.statements[id].line.periodEndMs, from, to)
               && !ContainedLine(t.statements[id].line, from, to)
    else {}
  }

  function MatchedLines(t: Tables, from: int, to: int): set<nat> {
    set id | id in t.statements && t.statements[id].status == Matched && ContainedLine(t.statements[id].line, from, to)
  }

  // One charge per request of the inner GROUP BY request_id.
  function ChargesOf(t: Tables, requestId: string, from: int, to: int): map<nat, real> {
    map id | id in MatchedLines(t, from, to) && t.statements[id].line.requestId == Some(requestId)
           :: t.statements[id].line.amount
  }

  function MatchedRequests(t: Tables, c: string, from: int, to: int): set<string> {
    set id | id in t.requests && t.requests[id].currency == c && ChargesOf(t, id, from, to) != map[]
  }

  function Intervals(t: Tables, c: string, from: int, to: int): set<nat> {
    set b | b in t.intervals && t.intervals[b].currency == c && t.intervals[b].fromMs.Some?
            && Contained(t.intervals[b].fromMs.value, t.intervals[b].toMs, from, to)
  }

  function Observed(snapshots: map<nat, Snapshot>, c: string, from: int, to: int): set<nat> {
    set b | b in snapshots && snapshots[b].currency == c && InPeriod(snapshots[b].observedAtMs, from, to)
  }

  // ----- Aggregates -----

  function Costs(t: Tables, ids: set<string>): map<string, real> {
    map id | id in ids && id in t.requests && t.requests[id].cost.Some? :: t.requests[id].cost.value
  }

  function Unknown(t: Tables, ids: set<string>): set<string> {
    set id | id in ids && id in t.requests && t.requests[id].cost.None?
  }

  function Amounts(t: Tables, ids: set<nat>): map<nat, real> {
    map id | id in ids && id in t.statements :: t.statements[id].line.amount
  }

  ghost function Charges(t: Tables, ids: set<string>, from: int, to: int): map<string, real> {
    map id | id in ids :: Total(ChargesOf(t, id, from, to))
  }

  function NetChanges(t: Tables, ids: set<nat>): map<nat, real> {
    map b | b in ids && b in t.intervals && t.intervals[b].netChange.Some? :: t.intervals[b].netChange.value
  }

  function Estimates(t: Tables, ids: set<nat>): map<nat, real> {
    map b | b in ids && b in t.intervals :: t.intervals[b].localEstimated
  }

  function UnknownCounts(t: Tables, ids: set<nat>): map<nat, real> {
    map b | b in ids && b in t.intervals :: t.intervals[b].unknownCostRequests as real
  }

  function Missing(t: Tables, ids: set<string>): set<string> {
    set id | id in ids && id in t.requests && t.requests[id].statementLines == 0
  }

  function Compared(t: Tables, ids: set<string>): set<string> {
    set id | id in ids && id in t.requests && t.requests[id].tokenizerCompared
  }

  function Mismatched(t: Tables, ids: set<string>): set<string> {
    set id | id in ids && id in t.requests && t.requests[id].tokenizerMismatch
  }

  function WithStatus(t: Tables, ids: set<nat>, matched: bool): set<nat> {
    set id | id in ids && id in t.statements && (t.statements[id].status == Matched) == matched
  }

  // ----- What each query contributes to the report of its currency -----

  ghost function AddRequests(x: Reconciliation, t: Tables, c: string, from: int, to: int): Reconciliation {
    var ids := Requests(t, c, from, to);
    x.(localEstimated := Total(Costs(t, ids)),
       unknownCostRequests := |Unknown(t, ids)|,
       missingStatementRequests := |Missing(t, ids)|,
       tokenizerComparisons := |Compared(t, ids)|,
       tokenizerMismatches := |Mismatched(t, ids)|)
  }

  ghost function AddLines(x: Reconciliation, t: Tables, c: string, from: int, to: int): Reconciliation {
    var ids := Lines(t, c, from, to);
    x.(supplierStatement := Total(Amounts(t, ids)),
       statementLines := |ids|,
       matchedLines := |WithStatus(t, ids, true)|,
       unmatchedLines := |WithStatus(t, ids, false)|)
  }

  function AddPartialLines(x: Reconciliation, t: Tables, c: string, from: int, to: int): Reconciliation {
    x.(partialStatementLines := |PartialLines(t, c, from, to)|)
  }

  ghost function AddMatched(x: Reconciliation, t: Tables, c: string, from: int, to: int): Reconciliation {
    var ids := MatchedRequests(t, c, from, to);
    if ids == {} then x
    else
      x.(matchedLocalEstimated := Total(Costs(t, ids)),
         matchedDifference := if Unknown(t, ids) == {}
                              then Some(Total(Charges(t, ids, from, to)) - Total(Costs(t, ids)))
                              else x.matchedDifference)
  }

  ghost function AddBalances(x: Reconciliation, t: Tables, c: string, from: int, to: int): Reconciliation {
    var ids := Intervals(t, c, from, to);
    if ids == {} then x
    else
      x.(balanceNetChange := Some(Total(NetChanges(t, ids))),
         unattributedBalanceDelta := if Total(UnknownCounts(t, ids)) == 0.0
                                     then Some(Total(NetChanges(t, ids)) + Total(Estimates(t, ids)))
                                     else x.unattributedBalanceDelta)
  }

  function Conclude(x: Reconciliation): Reconciliation {
    if x.statementLines > 0 && x.partialStatementLines == 0 && x.unmatchedLines == 0
       && x.missingStatementRequests == 0 && x.unknownCostRequests == 0
    then x.(coverage := Complete, difference := Some(x.supplierStatement - x.localEstimated))
    else if x.statementLines == 0 && x.partialStatementLines == 0 then x.(coverage := NoStatement)
    else x.(coverage := Partial)
  }

  // The query results of one currency, merged, and its whole report.
  ghost function Merged(t: Tables, c: string, from: int, to: int): Reconciliation {
    AddBalances(AddMatched(AddPartialLines(AddLines(AddRequests(EMPTY_REPORT,
      t, c, from, to), t, c, from, to), t, c, from, to), t, c, from, to), t, c, from, to)
  }

  ghost function Report(t: Tables, c: string, from: int, to: int): Reconciliation {
    Conclude(Merged(t, c, from, to))
  }

  // The currencies that appear in some query result.
  ghost predicate Reported(t: Tables, snapshots: map<nat, Snapshot>, c: string, from: int, to: int) {
    || Requests(t, c, from, to) != {}
    || Lines(t, c, from, to) != {}
    || PartialLines(t, c, from, to) != {}
    || MatchedRequests(t, c, from, to) != {}
    || Intervals(t, c, from, to) != {}
    || Observed(snapshots, c, from, to) != {}
  }

  // ----- "Complete" coverage -----

  // A request of the period with a matched line is matched by a contained one:
  // the line's period holds the request, so it overlaps, and none is partial.
  lemma RequestIsMatched(s: Source, c: string, from: int, to: int, id: string)
    requires id in Requests(Views(s), c, from, to)
    requires Views(s).requests[id].statementLines != 0
    requires PartialLines(Views(s), c, from, to) == {}
    ensures id in MatchedRequests(Views(s), c, from, to)
  {
    hide Total, IntervalView;
    var t := Views(s);
    var amounts := MatchedAmounts(s.audits, s.statements, id);
    assert amounts != map[];
    var line :| line in amounts;
    assert t.statements[line].line.currency == c;
    assert Overlaps(t.statements[line].line.periodStartMs, t.statements[line].line.periodEndMs, from, to);
    assert line !in PartialLines(t, c, from, to);
    assert ContainedLine(t.statements[line].line, from, to);
    assert line in ChargesOf(t, id, from, to);
  }

  // A contained line is matched to a request inside its own period.
  lemma MatchedIsRequested(s: Source, c: string, from: int, to: int, id: string)
    requires id in MatchedRequests(Views(s), c, from, to)
    ensures id in Requests(Views(s), c, from, to)
  {
    hide Total, IntervalView;
    var t := Views(s);
    var line :| line in ChargesOf(t, id, from, to);
    assert StatusOf(s.audits, s.statements[line]) == Matched;
  }

  lemma CompleteMatchesExactly(s: Source, c: string, from: int, to: int)
    requires Report(Views(s), c, from, to).coverage == Complete
    ensures Requests(Views(s), c, from, to) == MatchedRequests(Views(s), c, from, to)
    ensures Unknown(Views(s), Requests(Views(s), c, from, to)) == {}
    ensures forall id :: id in Lines(Views(s), c, from, to) ==> Views(s).statements[id].status == Matched
    ensures Lines(Views(s), c, from, to) != {}
  {
    hide Total, Views;
    var t := Views(s);
    var ids := Requests(t, c, from, to);
    assert PartialLines(t, c, from, to) == {};
    assert Missing(t, ids) == {};
    assert WithStatus(t, Lines(t, c, from, to), false) == {};
    forall id | id in ids ensures id in MatchedRequests(t, c, from, to) {
      assert id !in Missing(t, ids);
      RequestIsMatched(s, c, from, to, id);
    }
    forall id | id in MatchedRequests(t, c, from, to) ensures id in ids {
      MatchedIsRequested(s, c, from, to, id);
    }
    forall id | id in Lines(t, c, from, to) ensures t.statements[id].status == Matched {
      assert id !in WithStatus(t, Lines(t, c, from, to), false);
    }
  }

  // The request that each contained line charges.
  function Owners(t: Tables, ids: set<nat>): map<nat, string> {
    map id | id in ids && id in t.statements && t.statements[id].line.requestId.Some? :: t.statements[id].line.requestId.value
  }

  lemma OwnerIsMatched(s: Source, c: string, from: int, to: int, line: nat)
    requires line in Lines(Views(s), c, from, to) && Views(s).statements[line].status == Matched
    ensures var t := Views(s);
            && line in Owners(t, Lines(t, c, from, to))
            && Owners(t, Lines(t, c, from, to))[line] in MatchedRequests(t, c, from, to)
  {
    hide Total, IntervalView;
    var t := Views(s);
    assert StatusOf(s.audits, s.statements[line]) == Matched;
    var requestId := t.statements[line].line.requestId.value;
    assert line in ChargesOf(t, requestId, from, to);
  }

  // The two supplier sums agree: the lines of the currency, grouped by request.
  lemma CompleteSuppliersAgree(s: Source, c: string, from: int, to: int)
    requires Report(Views(s), c, from, to).coverage == Complete
    ensures var t := Views(s);
            Total(Charges(t, MatchedRequests(t, c, from, to), from, to)) == Total(Amounts(t, Lines(t, c, from, to)))
  {
    CompleteMatchesExactly(s, c, from, to);
    hide Total, Report, Views, Owners, MatchedRequests, ChargesOf, Lines, Fiber;
    var t := Views(s);
    var ids, lines := MatchedRequests(t, c, from, to), Lines(t, c, from, to);
    forall id | id in Amounts(t, lines) ensures id in Owners(t, lines) && Owners(t, lines)[id] in ids {
      OwnerIsMatched(s, c, from, to, id);
    }
    forall requestId | requestId in ids
      ensures Charges(t, ids, from, to)[requestId] == Total(Fiber(Amounts(t, lines), Owners(t, lines), requestId))
    {
      LinesOfRequest(s, c, from, to, requestId);
    }
    TotalByGroup(Amounts(t, lines), Owners(t, lines), Charges(t, ids, from, to));
  }

  lemma LinesOfRequest(s: Source, c: string, from: int, to: int, requestId: string)
    requires requestId in MatchedRequests(Views(s), c, from, to)
    requires forall id :: id in Lines(Views(s), c, from, to) ==> Views(s).statements[id].status == Matched
    ensures var t := Views(s);
            var lines := Lines(t, c, from, to);
            Fiber(Amounts(t, lines), Owners(t, lines), requestId) == ChargesOf(t, requestId, from, to)
  {
    hide Total, Views;
    var t := Views(s);
    forall id | id in ChargesOf(t, requestId, from, to) ensures id in Lines(t, c, from, to) {
      ChargeIsLine(s, c, from, to, requestId, id);
    }
  }

  lemma ChargeIsLine(s: Source, c: string, from: int, to: int, requestId: string, line: nat)
    requires requestId in MatchedRequests(Views(s), c, from, to) && line in ChargesOf(Views(s), requestId, from, to)
    ensures line in Lines(Views(s), c, from, to)
  {
    hide Total, IntervalView;
    assert StatusOf(s.audits, s.statements[line]) == Matched;
  }

  // Coverage is reported complete exactly when the currency has contained
  // lines, all matched, none partial, and the requests of the period are
  // exactly the requests those lines match, all with known cost.
  lemma CompleteIff(s: Source, c: string, from: int, to: int)
    ensures var t := Views(s);
            Report(t, c, from, to).coverage == Complete
            <==> && Lines(t, c, from, to) != {}
                 && PartialLines(t, c, from, to) == {}
                 && (forall id :: id in Lines(t, c, from, to) ==> t.statements[id].status == Matched)
                 && Requests(t, c, from, to) == MatchedRequests(t, c, from, to)
                 && Unknown(t, Requests(t, c, from, to)) == {}
  {
    hide Total, Views;
    var t := Views(s);
    if Report(t, c, from, to).coverage == Complete {
      CompleteMatchesExactly(s, c, from, to);
    }
    if forall id :: id in Lines(t, c, from, to) ==> t.statements[id].status == Matched {
      assert WithStatus(t, Lines(t, c, from, to), false) == {};
    }
    if Requests(t, c, from, to) == MatchedRequests(t, c, from, to) {
      forall id | id in Requests(t, c, from, to) ensures id !in Missing(t, Requests(t, c, from, to)) {
        MatchedHasLines(s, c, from, to, id);
      }
      assert Missing(t, Requests(t, c, from, to)) == {};
    }
  }

  lemma MatchedHasLines(s: Source, c: string, from: int, to: int, id: string)
    requires id in MatchedRequests(Views(s), c, from, to)
    ensures Views(s).requests[id].statementLines > 0
  {
    hide Total, IntervalView;
    var t := Views(s);
    var line :| line in ChargesOf(t, id, from, to);
    assert line in MatchedAmounts(s.audits, s.statements, id);
  }

  lemma CompleteHasMatched(s: Source, c: string, from: int, to: int)
    requires Report(Views(s), c, from, to).coverage == Complete
    ensures MatchedRequests(Views(s), c, from, to) != {}
  {
    CompleteMatchesExactly(s, c, from, to);
    hide *;
    var line :| line in Lines(Views(s), c, from, to);
    OwnerIsMatched(s, c, from, to, line);
  }

  // What a complete report shows of the two queries over requests.
  lemma CompleteFigures(t: Tables, c: string, from: int, to: int)
    requires Report(t, c, from, to).coverage == Complete
    requires Requests(t, c, from, to) == MatchedRequests(t, c, from, to) != {}
    requires Unknown(t, Requests(t, c, from, to)) == {}
    ensures var ids, x := Requests(t, c, from, to), Report(t, c, from, to);
            && x.localEstimated == x.matchedLocalEstimated == Total(Costs(t, ids))
            && x.difference == Some(Total(Amounts(t, Lines(t, c, from, to))) - x.localEstimated)
            && x.matchedDifference == Some(Total(Charges(t, ids, from, to)) - x.localEstimated)
  {
    hide Total, Requests, MatchedRequests, Lines, Intervals, PartialLines, Unknown, Missing, WithStatus;
    hide Costs, Amounts, Charges, NetChanges, UnknownCounts, Estimates;
  }

  // Coverage is reported complete only when the requests of the period are
  // exactly the requests matched by contained statements; then the two
  // differences, from different queries, exist and are equal.
  lemma CompleteCoverage(s: Source, c: string, from: int, to: int)
    requires Report(Views(s), c, from, to).coverage == Complete
    ensures var x := Report(Views(s), c, from, to);
            && Requests(Views(s), c, from, to) == MatchedRequests(Views(s), c, from, to)
            && x.matchedLocalEstimated == x.localEstimated
            && x.difference.Some? && x.matchedDifference == x.difference
  {
    hide *;
    CompleteMatchesExactly(s, c, from, to);
    CompleteSuppliersAgree(s, c, from, to);
    CompleteHasMatched(s, c, from, to);
    CompleteFigures(Views(s), c, from, to);
  }
}
