// What the report of a period says of the source tables themselves, without
// views, copies or queries (internal/ledger/reconcile.go:244-419).
module ReconciliationMeaning {
  import opened Basics
  import opened Sums
  import Text
  import opened ReconciliationSchema
  import opened ReconciliationTriggers
  import opened ReconciliationReport

  // ----- When a line was billed for a request -----

  predicate Bills(audits: map<string, Audit>, line: StatementLine, id: string) {
    && id != "" && line.requestId == Some(id) && id in audits
    && audits[id].currency == Some(line.currency)
    && (line.model == "" || line.model == audits[id].model)
    && line.periodStartMs <= audits[id].timestampMs < line.periodEndMs
  }

  lemma MatchedMeans(audits: map<string, Audit>, line: StatementLine)
    requires ValidLine(line)
    ensures StatusOf(audits, line) == Matched <==> exists id :: Bills(audits, line, id)
    ensures forall id :: Bills(audits, line, id) ==> line.requestId == Some(id)
  {
    if StatusOf(audits, line) == Matched {
      assert Bills(audits, line, line.requestId.value);
    }
  }

  // Every other status names the first thing that is wrong.
  lemma StatusMeans(audits: map<string, Audit>, line: StatementLine)
    requires ValidLine(line)
    ensures var status, named := StatusOf(audits, line), line.requestId.Some? && line.requestId.value != "";
            && (status == MissingRequestId <==> !named)
            && (status == RequestNotFound <==> named && line.requestId.value !in audits)
            && (named && line.requestId.value in audits ==>
                  var a := audits[line.requestId.value];
                  var sameCurrency, sameModel := a.currency == Some(line.currency), line.model == "" || line.model == a.model;
                  && (status == CurrencyMismatch <==> !sameCurrency)
                  && (status == ModelMismatch <==> sameCurrency && !sameModel)
                  && (status == OutsideRequestPeriod <==>
                        sameCurrency && sameModel && !(line.periodStartMs <= a.timestampMs < line.periodEndMs)))
  {
  }

  // After any inserts in any order the copies hold a line as matched exactly
  // when it was billed for an audited request.
  lemma MatchedInRuns(rows: seq<Insert>, line: nat)
    requires line in Run(Database(EMPTY_SOURCE, EMPTY_TABLES), rows).tables.statements
    ensures var d := Run(Database(EMPTY_SOURCE, EMPTY_TABLES), rows);
            && line in d.source.statements
            && (d.tables.statements[line].status == Matched <==> exists id :: Bills(d.source.audits, d.source.statements[line], id))
  {
    TablesEqualViewsFromEmpty(rows);
    hide Run, Total, RequestView, IntervalView;
    var d := Run(Database(EMPTY_SOURCE, EMPTY_TABLES), rows);
    MatchedMeans(d.source.audits, d.source.statements[line]);
  }

  // ----- When a line belongs to a period -----

  ghost predicate Inside(line: StatementLine, from: int, to: int) {
    forall at :: line.periodStartMs <= at < line.periodEndMs ==> InPeriod(at, from, to)
  }

  ghost predicate Touches(line: StatementLine, from: int, to: int) {
    exists at :: line.periodStartMs <= at < line.periodEndMs && InPeriod(at, from, to)
  }

  // A line is contained when all its instants are in the period, and overlaps
  // when some are.
  lemma ContainedMeans(line: StatementLine, from: int, to: int)
    requires ValidLine(line) && ValidPeriod(from, to)
    ensures ContainedLine(line, from, to) <==> Inside(line, from, to)
    ensures Overlaps(line.periodStartMs, line.periodEndMs, from, to) <==> Touches(line, from, to)
  {
    var start, end := line.periodStartMs, line.periodEndMs;
    assert !ContainedLine(line, from, to) ==> !InPeriod(start, from, to) || !InPeriod(end - 1, from, to);
    var at := if start < from then from else start;
    assert Overlaps(start, end, from, to) ==> start <= at < end && InPeriod(at, from, to);
  }

  // Adjacent periods divide the instants between them.
  lemma PeriodsPartition(at: int, from: int, mid: int, to: int)
    requires ValidPeriod(from, mid) && ValidPeriod(mid, to) && 0 < mid
    ensures InPeriod(at, from, to) <==> InPeriod(at, from, mid) != InPeriod(at, mid, to)
    ensures !(InPeriod(at, from, mid) && InPeriod(at, mid, to))
    ensures 0 < from < to ==> (InPeriod(at, from, to) <==> from <= at < to)
    ensures InPeriod(at, 0, 0)
  {
  }

  // So the requests of a period, and their costs, are those of its parts.
  lemma PeriodsAddUp(t: Tables, c: string, from: int, mid: int, to: int)
    requires ValidPeriod(from, mid) && ValidPeriod(mid, to) && 0 < mid
    ensures Report(t, c, from, to).localEstimated == Report(t, c, from, mid).localEstimated + Report(t, c, mid, to).localEstimated
    ensures Report(t, c, from, to).unknownCostRequests
            == Report(t, c, from, mid).unknownCostRequests + Report(t, c, mid, to).unknownCostRequests
  {
    forall at ensures InPeriod(at, from, to) <==> InPeriod(at, from, mid) || InPeriod(at, mid, to)
              ensures !(InPeriod(at, from, mid) && InPeriod(at, mid, to))
    {
      PeriodsPartition(at, from, mid, to);
    }
    hide InPeriod, Total;
    var all, first, second := Requests(t, c, from, to), Requests(t, c, from, mid), Requests(t, c, mid, to);
    assert Costs(t, all) == Costs(t, first) + Costs(t, second);
    assert Unknown(t, all) == Unknown(t, first) + Unknown(t, second);
    TotalUnion(Costs(t, first), Costs(t, second));
    EstimatesOf(t, c, from, to);
    EstimatesOf(t, c, from, mid);
    EstimatesOf(t, c, mid, to);
  }

  lemma EstimatesOf(t: Tables, c: string, from: int, to: int)
    ensures Report(t, c, from, to).localEstimated == Total(Costs(t, Requests(t, c, from, to)))
    ensures Report(t, c, from, to).unknownCostRequests == |Unknown(t, Requests(t, c, from, to))|
  {
    hide Total, Requests, Lines, MatchedRequests, Intervals, PartialLines;
  }

  // ----- The report, computed from the source tables -----

  function Audited(s: Source, c: string, from: int, to: int): set<string> {
    set id | id in s.audits && Coalesce(s.audits[id].currency, "") == c && InPeriod(s.audits[id].timestampMs, from, to)
  }

  function KnownCost(s: Source, ids: set<string>): map<string, real> {
    map id | id in ids && id in s.audits && s.audits[id].cost.Some? :: s.audits[id].cost.value
  }

  function Charged(s: Source, lines: set<nat>): map<nat, real> {
    map line | line in lines && line in s.statements :: s.statements[line].amount
  }

  ghost function InsideLines(s: Source, c: string, from: int, to: int): set<nat> {
    set line | line in s.statements && s.statements[line].currency == c && Inside(s.statements[line], from, to)
  }

  ghost function EdgeLines(s: Source, c: string, from: int, to: int): set<nat> {
    set line | line in s.statements && s.statements[line].currency == c
               && Touches(s.statements[line], from, to) && !Inside(s.statements[line], from, to)
  }

  ghost function Billed(s: Source, lines: set<nat>): set<nat> {
    set line | line in lines && line in s.statements && exists id :: Bills(s.audits, s.statements[line], id)
  }

  ghost predicate NeverBilled(s: Source, id: string) {
    forall line :: line in s.statements ==> !Bills(s.audits, s.statements[line], id)
  }

  predicate Measured(s: Source, id: string) {
    && id in s.tokens && id in s.audits
    && s.audits[id].inputTokens == Some(s.tokens[id].estimatedInput)
    && s.audits[id].outputTokens == Some(s.tokens[id].estimatedOutput)
  }

  lemma LinesAreInside(s: Source, c: string, from: int, to: int)
    requires WellFormed(s) && ValidPeriod(from, to)
    ensures Lines(Views(s), c, from, to) == InsideLines(s, c, from, to)
    ensures PartialLines(Views(s), c, from, to) == EdgeLines(s, c, from, to)
  {
    hide Total, RequestView, IntervalView, Inside, Touches;
    forall line | line in s.statements
      ensures ContainedLine(s.statements[line], from, to) <==> Inside(s.statements[line], from, to)
      ensures Overlaps(s.statements[line].periodStartMs, s.statements[line].periodEndMs, from, to) <==> Touches(s.statements[line], from, to)
    {
      ContainedMeans(s.statements[line], from, to);
    }
  }

  lemma RequestsOfSource(s: Source, c: string, from: int, to: int)
    requires WellFormed(s)
    ensures var t, ids := Views(s), Audited(s, c, from, to);
            && Requests(t, c, from, to) == ids
            && Costs(t, ids) == KnownCost(s, ids)
            && Unknown(t, ids) == (set id | id in ids && s.audits[id].cost.None?)
            && Compared(t, ids) == (set id | id in ids && id in s.tokens)
            && Mismatched(t, ids) == (set id | id in ids && id in s.tokens && !Measured(s, id))
  {
    hide Total, IntervalView, MatchedAmounts;
    assert forall id :: id in s.tokens ==> ValidComparison(id, s.tokens[id]);
    hide WellFormed;
  }

  lemma MissingOfSource(s: Source, c: string, from: int, to: int)
    requires WellFormed(s)
    ensures Missing(Views(s), Audited(s, c, from, to)) == set id | id in Audited(s, c, from, to) && NeverBilled(s, id)
  {
    hide Total, IntervalView, InPeriod, WellFormed, NeverBilled;
    forall id | id in s.audits ensures Views(s).requests[id].statementLines == 0 <==> NeverBilled(s, id) {
      NoLineIsNeverBilled(s, id);
    }
  }

  lemma NoLineIsNeverBilled(s: Source, id: string)
    requires WellFormed(s) && id in s.audits
    ensures MatchedAmounts(s.audits, s.statements, id) == map[] <==> NeverBilled(s, id)
  {
    var amounts := MatchedAmounts(s.audits, s.statements, id);
    forall line | line in s.statements ensures line in amounts <==> Bills(s.audits, s.statements[line], id) {
      MatchedMeans(s.audits, s.statements[line]);
      EmptyIsUnbilled(s.audits, s.statements[line]);
    }
    hide StatusOf, Bills, MatchedAmounts;
    if amounts == map[] {
      assert forall line :: line in s.statements ==> line !in amounts;
    } else {
      var line :| line in amounts;
      assert line in s.statements;
    }
  }

  lemma EmptyIsUnbilled(audits: map<string, Audit>, line: StatementLine)
    ensures line.requestId == Some("") ==> StatusOf(audits, line) != Matched
  {
  }

  // The fields of a report by the selections they are made of.
  lemma FieldsOf(t: Tables, c: string, from: int, to: int)
    ensures var x := Report(t, c, from, to);
            var ids, lines, matched := Requests(t, c, from, to), Lines(t, c, from, to), MatchedRequests(t, c, from, to);
            && x.localEstimated == Total(Costs(t, ids)) && x.unknownCostRequests == |Unknown(t, ids)|
            && x.missingStatementRequests == |Missing(t, ids)|
            && x.tokenizerComparisons == |Compared(t, ids)| && x.tokenizerMismatches == |Mismatched(t, ids)|
            && x.supplierStatement == Total(Amounts(t, lines)) && x.statementLines == |lines|
            && x.matchedLines == |WithStatus(t, lines, true)| && x.unmatchedLines == |WithStatus(t, lines, false)|
            && x.partialStatementLines == |PartialLines(t, c, from, to)|
            && x.matchedLocalEstimated == (if matched == {} then 0.0 else Total(Costs(t, matched)))
            && x.matchedDifference == (if matched != {} && Unknown(t, matched) == {}
                                       then Some(Total(Charges(t, matched, from, to)) - Total(Costs(t, matched))) else None)
            && (x.coverage == NoStatement <==> x.statementLines == 0 && x.partialStatementLines == 0)
            && (x.coverage == Complete <==>
                  x.statementLines > 0 && x.partialStatementLines == 0 && x.unmatchedLines == 0
                  && x.missingStatementRequests == 0 && x.unknownCostRequests == 0)
            && x.difference == (if x.coverage == Complete then Some(x.supplierStatement - x.localEstimated) else None)
  {
    hide Total, Requests, Lines, MatchedRequests, Intervals, PartialLines, Costs, Unknown, Missing, Compared, Mismatched;
    hide Amounts, WithStatus, Charges, NetChanges, UnknownCounts, Estimates;
  }

  // Requests with a line of the period that was billed for them.
  ghost function BilledRequests(s: Source, c: string, from: int, to: int): set<string> {
    set id | id in s.audits && Coalesce(s.audits[id].currency, "") == c
             && exists line :: line in InsideLines(s, c, from, to) && Bills(s.audits, s.statements[line], id)
  }

  lemma BilledOfSource(s: Source, c: string, from: int, to: int)
    requires WellFormed(s) && ValidPeriod(from, to)
    ensures MatchedRequests(Views(s), c, from, to) == BilledRequests(s, c, from, to)
  {
    LinesAreInside(s, c, from, to);
    hide Total, IntervalView, WellFormed, InsideLines, EdgeLines, PartialLines;
    var t := Views(s);
    forall id | id in s.audits && Coalesce(s.audits[id].currency, "") == c
      ensures ChargesOf(t, id, from, to) != map[] <==>
              exists line :: line in InsideLines(s, c, from, to) && Bills(s.audits, s.statements[line], id)
    {
      ChargesAreBilled(s, c, from, to, id);
    }
    hide ChargesOf, Bills;
  }

  lemma ChargesAreBilled(s: Source, c: string, from: int, to: int, id: string)
    requires WellFormed(s) && id in s.audits && Coalesce(s.audits[id].currency, "") == c
    requires Lines(Views(s), c, from, to) == InsideLines(s, c, from, to)
    ensures var charges := ChargesOf(Views(s), id, from, to);
            charges != map[] <==> exists line :: line in InsideLines(s, c, from, to) && Bills(s.audits, s.statements[line], id)
  {
    hide Total, IntervalView, InsideLines;
    var t := Views(s);
    var charges := ChargesOf(t, id, from, to);
    forall line | line in s.statements
      ensures line in charges <==> line in Lines(t, c, from, to) && Bills(s.audits, s.statements[line], id)
    {
      MatchedMeans(s.audits, s.statements[line]);
      EmptyIsUnbilled(s.audits, s.statements[line]);
    }
    hide Bills, ChargesOf;
    if charges != map[] {
      var line :| line in charges;
      assert line in s.statements;
    }
  }

  lemma AmountsOfSource(s: Source, c: string, from: int, to: int)
    requires WellFormed(s) && ValidPeriod(from, to)
    ensures var t, lines := Views(s), InsideLines(s, c, from, to);
            && Amounts(t, lines) == Charged(s, lines)
            && WithStatus(t, lines, true) == Billed(s, lines)
            && WithStatus(t, lines, false) == lines - Billed(s, lines)
  {
    forall line | line in s.statements
      ensures StatusOf(s.audits, s.statements[line]) == Matched <==> exists id :: Bills(s.audits, s.statements[line], id)
    {
      MatchedMeans(s.audits, s.statements[line]);
    }
    hide Total, IntervalView, RequestView, StatusOf, Bills, Inside;
  }

  // Main result: every figure of a report about requests and lines, computed
  // from the audits, comparisons and lines as they were inserted.
  lemma RequestFigures(s: Source, c: string, from: int, to: int)
    requires WellFormed(s)
    ensures
      var x, ids := Report(Views(s), c, from, to), Audited(s, c, from, to);
      && x.localEstimated == Total(KnownCost(s, ids))
      && x.unknownCostRequests == |set id | id in ids && s.audits[id].cost.None?|
      && x.missingStatementRequests == |set id | id in ids && NeverBilled(s, id)|
      && x.tokenizerComparisons == |set id | id in ids && id in s.tokens|
      && x.tokenizerMismatches == |set id | id in ids && id in s.tokens && !Measured(s, id)|
  {
    hide *;
    FieldsOf(Views(s), c, from, to);
    RequestsOfSource(s, c, from, to);
    MissingOfSource(s, c, from, to);
  }

  lemma LineFigures(s: Source, c: string, from: int, to: int)
    requires WellFormed(s) && ValidPeriod(from, to)
    ensures
      var x, lines := Report(Views(s), c, from, to), InsideLines(s, c, from, to);
      && x.supplierStatement == Total(Charged(s, lines))
      && x.statementLines == |lines| && x.partialStatementLines == |EdgeLines(s, c, from, to)|
      && x.matchedLines == |Billed(s, lines)| && x.unmatchedLines == |lines - Billed(s, lines)|
      && (x.coverage == NoStatement <==> lines == {} && EdgeLines(s, c, from, to) == {})
  {
    hide *;
    FieldsOf(Views(s), c, from, to);
    LinesAreInside(s, c, from, to);
    AmountsOfSource(s, c, from, to);
  }

  lemma MatchedFigures(s: Source, c: string, from: int, to: int)
    requires WellFormed(s) && ValidPeriod(from, to)
    ensures
      var x, billed := Report(Views(s), c, from, to), BilledRequests(s, c, from, to);
      && billed <= s.audits.Keys
      && x.matchedLocalEstimated == Total(KnownCost(s, billed))
      && (x.matchedDifference.Some? <==> billed != {} && forall id :: id in billed ==> s.audits[id].cost.Some?)
  {
    BilledAreAudited(s, c, from, to);
    hide *;
    FieldsOf(Views(s), c, from, to);
    BilledOfSource(s, c, from, to);
    var billed := BilledRequests(s, c, from, to);
    CostsOfSource(s, billed);
    NothingCosts();
    NothingKnown(s);
  }

  function OwnersOf(s: Source, lines: set<nat>): map<nat, string> {
    map line | line in lines && line in s.statements && s.statements[line].requestId.Some? :: s.statements[line].requestId.value
  }

  lemma FiberIsCharges(s: Source, c: string, from: int, to: int, id: string)
    requires WellFormed(s) && id in s.audits && Coalesce(s.audits[id].currency, "") == c
    requires Lines(Views(s), c, from, to) == InsideLines(s, c, from, to)
    ensures var billed := Billed(s, InsideLines(s, c, from, to));
            ChargesOf(Views(s), id, from, to) == Fiber(Charged(s, billed), OwnersOf(s, billed), id)
  {
    hide Total, IntervalView, InsideLines;
    var t, billed := Views(s), Billed(s, InsideLines(s, c, from, to));
    forall line | line in s.statements
      ensures line in ChargesOf(t, id, from, to) <==> line in Lines(t, c, from, to) && Bills(s.audits, s.statements[line], id)
      ensures line in Billed(s, InsideLines(s, c, from, to)) && s.statements[line].requestId == Some(id)
              <==> line in Lines(t, c, from, to) && Bills(s.audits, s.statements[line], id)
    {
      MatchedMeans(s.audits, s.statements[line]);
      EmptyIsUnbilled(s.audits, s.statements[line]);
    }
    hide Bills, StatusOf;
  }

  lemma BilledHaveOwners(s: Source, c: string, from: int, to: int)
    ensures var billed := Billed(s, InsideLines(s, c, from, to));
            forall line :: line in billed ==>
              line in s.statements && line in OwnersOf(s, billed) && OwnersOf(s, billed)[line] in BilledRequests(s, c, from, to)
  {
    hide Inside;
    var billed := Billed(s, InsideLines(s, c, from, to));
    forall line | line in billed
      ensures line in OwnersOf(s, billed) && OwnersOf(s, billed)[line] in BilledRequests(s, c, from, to)
    {
      var id :| Bills(s.audits, s.statements[line], id);
    }
  }

  // Grouped by request or not, the billed lines of the period add up to the same.
  lemma ChargesAddUp(s: Source, c: string, from: int, to: int)
    requires WellFormed(s) && ValidPeriod(from, to)
    requires Lines(Views(s), c, from, to) == InsideLines(s, c, from, to)
    ensures Total(Charges(Views(s), BilledRequests(s, c, from, to), from, to)) == Total(Charged(s, Billed(s, InsideLines(s, c, from, to))))
  {
    BilledHaveOwners(s, c, from, to);
    BilledInCurrency(s, c, from, to);
    hide Total, Views, BilledRequests, Billed, InsideLines, ChargesOf, Fiber, WellFormed, OwnersOf, Lines, ValidPeriod;
    var t, ids, billed := Views(s), BilledRequests(s, c, from, to), Billed(s, InsideLines(s, c, from, to));
    var amounts, owners := Charged(s, billed), OwnersOf(s, billed);
    var sums := Charges(t, ids, from, to);
    forall id | id in ids ensures sums[id] == Total(Fiber(amounts, owners, id)) {
      FiberIsCharges(s, c, from, to, id);
    }
    TotalByGroup(amounts, owners, sums);
  }

  lemma BilledInCurrency(s: Source, c: string, from: int, to: int)
    ensures forall id :: id in BilledRequests(s, c, from, to) ==> id in s.audits && Coalesce(s.audits[id].currency, "") == c
  {
  }

  // The supplier side of the matched difference: the billed lines of the period.
  lemma MatchedDifferenceMeans(s: Source, c: string, from: int, to: int)
    requires WellFormed(s) && ValidPeriod(from, to)
    ensures var x := Report(Views(s), c, from, to);
            x.matchedDifference.Some? ==>
              x.matchedDifference.value == Total(Charged(s, Billed(s, InsideLines(s, c, from, to)))) - x.matchedLocalEstimated
  {
    hide *;
    FieldsOf(Views(s), c, from, to);
    BilledOfSource(s, c, from, to);
    LinesAreInside(s, c, from, to);
    ChargesAddUp(s, c, from, to);
  }

  lemma NothingKnown(s: Source)
    ensures KnownCost(s, {}) == map[]
  {
  }

  lemma BilledAreAudited(s: Source, c: string, from: int, to: int)
    ensures BilledRequests(s, c, from, to) <= s.audits.Keys
  {
  }

  lemma CostsOfSource(s: Source, ids: set<string>)
    requires ids <= s.audits.Keys
    ensures Costs(Views(s), ids) == KnownCost(s, ids)
    ensures Unknown(Views(s), ids) == {} <==> forall id :: id in ids ==> s.audits[id].cost.Some?
  {
    hide Total, IntervalView, StatementView, MatchedAmounts;
    if Unknown(Views(s), ids) == {} {
      forall id | id in ids ensures s.audits[id].cost.Some? { assert id !in Unknown(Views(s), ids); }
    }
  }

  lemma NothingCosts()
    ensures Total<string>(map[]) == 0.0
  {
  }

  // ----- Balance intervals -----

  function SpentBetween(s: Source, c: string, from: int, to: int): map<string, real> {
    map id | id in s.audits && s.audits[id].currency == Some(c) && s.audits[id].cost.Some?
             && from <= s.audits[id].timestampMs && s.audits[id].timestampMs < to
           :: s.audits[id].cost.value
  }

  function UnpricedBetween(s: Source, c: string, from: int, to: int): set<string> {
    set id | id in s.audits && s.audits[id].currency == Some(c) && s.audits[id].cost.None?
             && from <= s.audits[id].timestampMs && s.audits[id].timestampMs < to
  }

  // The interval that a snapshot ends: the change of the balance since the one
  // before, and the requests from that instant on and before its own.
  lemma IntervalMeans(s: Source, b: nat, p: nat)
    requires WellFormed(s) && IsPrevious(s.snapshots, b, p)
    ensures var start, end := s.snapshots[p], s.snapshots[b];
            var from, to := start.observedAtMs, end.observedAtMs;
            IntervalView(s)[b] == IntervalRow(Some(from), to, end.currency, Some(end.total - start.total),
                                              Total(SpentBetween(s, end.currency, from, to)), |UnpricedBetween(s, end.currency, from, to)|)
  {
    PreviousIs(s.snapshots, b, p);
    var end := s.snapshots[b];
    var from, to := s.snapshots[p].observedAtMs, end.observedAtMs;
    assert KnownCosts(s.audits, end.currency, from, to) == SpentBetween(s, end.currency, from, to);
    assert UnknownCosts(s.audits, end.currency, from, to) == UnpricedBetween(s, end.currency, from, to);
    hide Total, Previous, IsPrevious, KnownCosts, UnknownCosts, SpentBetween, UnpricedBetween;
  }

  // The first snapshot of a currency ends no interval.
  lemma FirstInterval(s: Source, b: nat)
    requires WellFormed(s) && b in s.snapshots
    ensures IntervalView(s)[b].fromMs.None? <==>
            forall q :: q in s.snapshots && s.snapshots[q].currency == s.snapshots[b].currency ==>
              s.snapshots[b].observedAtMs <= s.snapshots[q].observedAtMs
  {
    hide Total, KnownCosts, UnknownCosts;
    forall q | q in s.snapshots && s.snapshots[q].currency == s.snapshots[b].currency
               && s.snapshots[q].observedAtMs < s.snapshots[b].observedAtMs
      ensures Previous(s.snapshots, b).Some?
    {
      assert q in Earlier(s.snapshots, b);
      PreviousExists(s.snapshots, b, q);
    }
  }

  // ----- Which currencies are listed -----

  // A currency is listed when it has a request or a balance in the period, or a
  // line that touches it.
  lemma ListedMeans(s: Source, c: string, from: int, to: int)
    requires WellFormed(s) && ValidPeriod(from, to)
    ensures Reported(Views(s), s.snapshots, c, from, to) <==>
              || (exists id :: id in s.audits && Coalesce(s.audits[id].currency, "") == c && InPeriod(s.audits[id].timestampMs, from, to))
              || (exists line :: line in s.statements && s.statements[line].currency == c && Touches(s.statements[line], from, to))
              || (exists b :: b in s.snapshots && s.snapshots[b].currency == c && InPeriod(s.snapshots[b].observedAtMs, from, to))
  {
    RequestsOfSource(s, c, from, to);
    LinesAreInside(s, c, from, to);
    BilledOfSource(s, c, from, to);
    IntervalsAreObserved(s, c, from, to);
    SomeInPeriod(s, c, from, to);
    LinesTouch(s, c, from, to);
    BilledHaveLines(s, c, from, to);
    hide Views, Requests, Lines, PartialLines, MatchedRequests, Intervals, Observed, InsideLines, EdgeLines, BilledRequests, Audited;
    hide Touches, InPeriod;
  }

  lemma SomeInPeriod(s: Source, c: string, from: int, to: int)
    ensures Audited(s, c, from, to) != {} <==>
            exists id :: id in s.audits && Coalesce(s.audits[id].currency, "") == c && InPeriod(s.audits[id].timestampMs, from, to)
    ensures Observed(s.snapshots, c, from, to) != {} <==>
            exists b :: b in s.snapshots && s.snapshots[b].currency == c && InPeriod(s.snapshots[b].observedAtMs, from, to)
  {
    hide InPeriod;
    if id :| id in s.audits && Coalesce(s.audits[id].currency, "") == c && InPeriod(s.audits[id].timestampMs, from, to) {
      assert id in Audited(s, c, from, to);
    }
    if b :| b in s.snapshots && s.snapshots[b].currency == c && InPeriod(s.snapshots[b].observedAtMs, from, to) {
      assert b in Observed(s.snapshots, c, from, to);
    }
  }

  lemma LinesTouch(s: Source, c: string, from: int, to: int)
    requires WellFormed(s)
    ensures InsideLines(s, c, from, to) != {} || EdgeLines(s, c, from, to) != {} <==>
            exists line :: line in s.statements && s.statements[line].currency == c && Touches(s.statements[line], from, to)
  {
    forall line | line in s.statements ensures Inside(s.statements[line], from, to) ==> Touches(s.statements[line], from, to) {
      InsideTouches(s.statements[line], from, to);
    }
    hide Inside, Touches, WellFormed;
    if line :| line in s.statements && s.statements[line].currency == c && Touches(s.statements[line], from, to) {
      assert line in InsideLines(s, c, from, to) || line in EdgeLines(s, c, from, to);
    }
  }

  lemma InsideTouches(line: StatementLine, from: int, to: int)
    requires ValidLine(line)
    ensures Inside(line, from, to) ==> Touches(line, from, to)
  {
    if Inside(line, from, to) {
      assert InPeriod(line.periodStartMs, from, to);
    }
  }

  lemma BilledHaveLines(s: Source, c: string, from: int, to: int)
    ensures BilledRequests(s, c, from, to) != {} ==> InsideLines(s, c, from, to) != {}
  {
    hide Inside;
    if id :| id in BilledRequests(s, c, from, to) {
      var line :| line in InsideLines(s, c, from, to) && Bills(s.audits, s.statements[line], id);
    }
  }

  // The earlier end of an interval of the period is an instant of it.
  lemma IntervalsAreObserved(s: Source, c: string, from: int, to: int)
    requires WellFormed(s) && ValidPeriod(from, to)
    ensures Intervals(Views(s), c, from, to) != {} ==> Observed(s.snapshots, c, from, to) != {}
  {
    hide Total, KnownCosts, UnknownCosts, RequestView, StatementView, WellFormed;
    if b :| b in Intervals(Views(s), c, from, to) {
      var previous := Previous(s.snapshots, b).value;
      assert IsPrevious(s.snapshots, b, previous);
      assert previous in Observed(s.snapshots, c, from, to);
    }
  }

  // ----- Only valid rows -----

  // After any inserts every line has a proper period, a currency and an amount
  // that is not negative, and comparisons and balances are as proper.
  lemma RowsAreProper(rows: seq<Insert>)
    ensures var s := Run(Database(EMPTY_SOURCE, EMPTY_TABLES), rows).source;
            && (forall line :: line in s.statements ==>
                  0 <= s.statements[line].periodStartMs < s.statements[line].periodEndMs && s.statements[line].currency != ""
                  && s.statements[line].amount >= 0.0)
            && "" !in s.tokens
            && (forall id :: id in s.tokens ==> s.tokens[id].estimatedInput >= 0 && s.tokens[id].estimatedOutput >= 0)
            && (forall b :: b in s.snapshots ==>
                  s.snapshots[b].observedAtMs > 0 && s.snapshots[b].total >= 0.0
                  && exists i :: 0 <= i < |s.snapshots[b].currency| && !Text.IsSpace(s.snapshots[b].currency[i]))
  {
    TablesEqualViewsFromEmpty(rows);
    var s := Run(Database(EMPTY_SOURCE, EMPTY_TABLES), rows).source;
    hide Run;
    forall b | b in s.snapshots
      ensures exists i :: 0 <= i < |s.snapshots[b].currency| && !Text.IsSpace(s.snapshots[b].currency[i])
    {
      assert !Text.Blank(s.snapshots[b].currency);
    }
  }

  // In every run, for every valid period and currency, the report read off the
  // copies is that of the source tables.
  lemma ReportOfRuns(rows: seq<Insert>, c: string, from: int, to: int)
    requires ValidPeriod(from, to)
    ensures var d := Run(Database(EMPTY_SOURCE, EMPTY_TABLES), rows);
            WellFormed(d.source) && Report(d.tables, c, from, to) == Report(Views(d.source), c, from, to)
  {
    TablesEqualViewsFromEmpty(rows);
  }
}
