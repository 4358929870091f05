// internal/ledger/reconciliation_schema.go: three source views say what the
// reconciliation tables mean, and four insert triggers keep materialized
// copies of them up to date row by row.
module ReconciliationSchema {
  import opened Basics
  import opened Sums
  import Text

  // ----- Source tables -----

  datatype Audit = Audit(
    timestampMs: int, currency: Option<string>, model: string, cost: Option<real>,
    inputTokens: Option<int>, outputTokens: Option<int>)

  datatype TokenComparison = TokenComparison(estimatedInput: int, estimatedOutput: int)

  datatype StatementLine = StatementLine(
    periodStartMs: int, periodEndMs: int, currency: string, amount: real,
    requestId: Option<string>, model: string)

  datatype Snapshot = Snapshot(observedAtMs: int, currency: string, total: real)

  // The two AUTOINCREMENT tables carry the next row id.
  datatype Source = Source(
    audits: map<string, Audit>,
    tokens: map<string, TokenComparison>,
    statements: map<nat, StatementLine>, nextStatement: nat,
    snapshots: map<nat, Snapshot>, nextSnapshot: nat)

  // Rows that are refused before they reach a table (reconcile.go:79-93 and 197).
  predicate ValidLine(line: StatementLine) {
    0 <= line.periodStartMs < line.periodEndMs && line.currency != "" && line.amount >= 0.0
  }

  predicate ValidComparison(requestId: string, c: TokenComparison) {
    requestId != "" && c.estimatedInput >= 0 && c.estimatedOutput >= 0
  }

  predicate ValidSnapshot(b: Snapshot) {
    b.observedAtMs > 0 && !Text.Blank(b.currency) && b.total >= 0.0
  }

  const EMPTY_SOURCE := Source(map[], map[], map[], 0, map[], 0)

  // ----- Materialized tables -----

  datatype Status =
    | MissingRequestId
    | RequestNotFound
    | CurrencyMismatch
    | ModelMismatch
    | OutsideRequestPeriod
    | Matched

  datatype RequestRow = RequestRow(
    timestampMs: int, currency: string, model: string, cost: Option<real>,
    inputTokens: Option<int>, outputTokens: Option<int>,
    statementLines: int, supplierAmount: real,
    tokenizerCompared: bool, tokenizerMismatch: bool)

  datatype StatementRow = StatementRow(line: StatementLine, status: Status)

  datatype IntervalRow = IntervalRow(
    fromMs: Option<int>, toMs: int, currency: string, netChange: Option<real>,
    localEstimated: real, unknownCostRequests: int)

  datatype Tables = Tables(
    requests: map<string, RequestRow>,
    statements: map<nat, StatementRow>,
    intervals: map<nat, IntervalRow>)

  const EMPTY_TABLES := Tables(map[], map[], map[])

  // ----- Source views -----

  function StatusOf(audits: map<string, Audit>, line: StatementLine): Status {
    if line.requestId.None? || line.requestId.value == "" then MissingRequestId
    else if line.requestId.value !in audits then RequestNotFound
    else
      var a := audits[line.requestId.value];
      if Coalesce(a.currency, "") != line.currency then CurrencyMismatch
      else if line.model != "" && line.model != a.model then ModelMismatch
      else if a.timestampMs < line.periodStartMs || a.timestampMs >= line.periodEndMs then OutsideRequestPeriod
      else Matched
  }

  function StatementView(s: Source): map<nat, StatementRow> {
    map id | id in s.statements :: StatementRow(s.statements[id], StatusOf(s.audits, s.statements[id]))
  }

  // The matched supplier charges of one request, by statement id.
  function MatchedAmounts(audits: map<string, Audit>, statements: map<nat, StatementLine>, requestId: string): map<nat, real> {
    map id | id in statements && statements[id].requestId == Some(requestId) && StatusOf(audits, statements[id]) == Matched
           :: statements[id].amount
  }

  function TokenMismatch(c: TokenComparison, input: Option<int>, output: Option<int>): bool {
    c.estimatedInput != Coalesce(input, -1) || c.estimatedOutput != Coalesce(output, -1)
  }

  ghost function RequestSource(s: Source, id: string): RequestRow
    requires id in s.audits
  {
    var a := s.audits[id];
    var amounts := MatchedAmounts(s.audits, s.statements, id);
    RequestRow(
      a.timestampMs, Coalesce(a.currency, ""), a.model, a.cost, a.inputTokens, a.outputTokens,
      |amounts|, Total(amounts),
      id in s.tokens,
      id in s.tokens && TokenMismatch(s.tokens[id], a.inputTokens, a.outputTokens))
  }

  ghost function RequestView(s: Source): map<string, RequestRow> {
    map id | id in s.audits :: RequestSource(s, id)
  }

  // p is the latest snapshot of b's currency strictly before b.
  ghost predicate IsPrevious(snapshots: map<nat, Snapshot>, b: nat, p: nat) {
    && b in snapshots && p in snapshots
    && snapshots[p].currency == snapshots[b].currency
    && snapshots[p].observedAtMs < snapshots[b].observedAtMs
    && forall q :: q in snapshots && snapshots[q].currency == snapshots[b].currency
                   && snapshots[q].observedAtMs < snapshots[b].observedAtMs
                   ==> snapshots[q].observedAtMs <= snapshots[p].observedAtMs
  }

  ghost function Previous(snapshots: map<nat, Snapshot>, b: nat): Option<nat> {
    if exists p :: IsPrevious(snapshots, b, p)
    then var p :| IsPrevious(snapshots, b, p); Some(p)
    else None
  }

  predicate InInterval(a: Audit, currency: string, fromMs: int, toMs: int) {
    a.currency == Some(currency) && fromMs <= a.timestampMs < toMs
  }

  function KnownCosts(audits: map<string, Audit>, currency: string, fromMs: int, toMs: int): map<string, real> {
    map id | id in audits && InInterval(audits[id], currency, fromMs, toMs) && audits[id].cost.Some?
           :: audits[id].cost.value
  }

  function UnknownCosts(audits: map<string, Audit>, currency: string, fromMs: int, toMs: int): set<string> {
    set id | id in audits && InInterval(audits[id], currency, fromMs, toMs) && audits[id].cost.None?
  }

  ghost function IntervalBetween(s: Source, previous: Option<nat>, b: nat): IntervalRow
    requires b in s.snapshots && (previous.Some? ==> previous.value in s.snapshots)
  {
    var to := s.snapshots[b];
    if previous.None? then
      IntervalRow(None, to.observedAtMs, to.currency, None, 0.0, 0)
    else
      var from := s.snapshots[previous.value];
      IntervalRow(Some(from.observedAtMs), to.observedAtMs, to.currency, Some(to.total - from.total),
                  Total(KnownCosts(s.audits, to.currency, from.observedAtMs, to.observedAtMs)),
                  |UnknownCosts(s.audits, to.currency, from.observedAtMs, to.observedAtMs)|)
  }

  ghost function IntervalSource(s: Source, b: nat): IntervalRow
    requires b in s.snapshots
  {
    IntervalBetween(s, Previous(s.snapshots, b), b)
  }

  ghost function IntervalView(s: Source): map<nat, IntervalRow> {
    map b | b in s.snapshots :: IntervalSource(s, b)
  }

  ghost function Views(s: Source): Tables {
    Tables(RequestView(s), StatementView(s), IntervalView(s))
  }

  // UNIQUE(observed_at_ms, currency), and row ids below the AUTOINCREMENT counters.
  ghost predicate UniqueSnapshots(snapshots: map<nat, Snapshot>) {
    forall b, c :: b in snapshots && c in snapshots && b != c
                   ==> snapshots[b].observedAtMs != snapshots[c].observedAtMs || snapshots[b].currency != snapshots[c].currency
  }

  ghost predicate WellFormed(s: Source) {
    && UniqueSnapshots(s.snapshots)
    && (forall id :: id in s.statements ==> id < s.nextStatement && ValidLine(s.statements[id]))
    && (forall id :: id in s.tokens ==> ValidComparison(id, s.tokens[id]))
    && (forall b :: b in s.snapshots ==> b < s.nextSnapshot && ValidSnapshot(s.snapshots[b]))
  }

  predicate SnapshotExists(snapshots: map<nat, Snapshot>, b: Snapshot) {
    exists id :: id in snapshots && snapshots[id].observedAtMs == b.observedAtMs && snapshots[id].currency == b.currency
  }

  // ----- Predecessors -----

  lemma PreviousIs(snapshots: map<nat, Snapshot>, b: nat, p: nat)
    requires UniqueSnapshots(snapshots) && IsPrevious(snapshots, b, p)
    ensures Previous(snapshots, b) == Some(p)
  {
    var other := Previous(snapshots, b).value;
    assert IsPrevious(snapshots, b, other);
    assert snapshots[other].observedAtMs == snapshots[p].observedAtMs;
  }

  // ORDER BY observed_at_ms DESC LIMIT 1 finds a row whenever any row qualifies.
  lemma {:induction false} LatestExists(snapshots: map<nat, Snapshot>, ids: set<nat>) returns (p: nat)
    requires ids != {} && forall q :: q in ids ==> q in snapshots
    ensures p in ids && forall q :: q in ids ==> snapshots[q].observedAtMs <= snapshots[p].observedAtMs
    decreases |ids|
  {
    p :| p in ids;
    var rest := ids - {p};
    assert forall q :: q in ids ==> q == p || q in rest;
    if rest != {} {
      assert |rest| < |ids|;
      var other := LatestExists(snapshots, rest);
      if snapshots[p].observedAtMs < snapshots[other].observedAtMs {
        p := other;
      }
    }
  }

  ghost function Earlier(snapshots: map<nat, Snapshot>, b: nat): set<nat>
    requires b in snapshots
  {
    set q | q in snapshots && snapshots[q].currency == snapshots[b].currency
            && snapshots[q].observedAtMs < snapshots[b].observedAtMs
  }

  lemma PreviousExists(snapshots: map<nat, Snapshot>, b: nat, q: nat)
    requires b in snapshots && q in Earlier(snapshots, b)
    ensures Previous(snapshots, b).Some? && IsPrevious(snapshots, b, Previous(snapshots, b).value)
    ensures snapshots[q].observedAtMs <= snapshots[Previous(snapshots, b).value].observedAtMs
  {
    var p := LatestExists(snapshots, Earlier(snapshots, b));
    assert IsPrevious(snapshots, b, p);
  }
}
