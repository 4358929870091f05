// internal/ledger/reconciliation_schema.go:78-110: the four AFTER INSERT
// triggers and the one-time backfill, and the proof that the materialized
// tables always equal the source views.
module ReconciliationTriggers {
  import opened Basics
  import opened Sums
  import opened ReconciliationSchema

  datatype Insert =
    | InsertAudit(id: string, audit: Audit)
    | InsertToken(requestId: string, comparison: TokenComparison)
    | InsertStatement(line: StatementLine)
    | InsertSnapshot(snapshot: Snapshot)

  // A row that is invalid, or violates a PRIMARY KEY or UNIQUE constraint, is
  // not inserted.
  predicate Accepted(s: Source, row: Insert) {
    match row
    case InsertAudit(id, _) => id !in s.audits
    case InsertToken(requestId, c) => ValidComparison(requestId, c) && requestId !in s.tokens
    case InsertStatement(line) => ValidLine(line)
    case InsertSnapshot(b) => ValidSnapshot(b) && !SnapshotExists(s.snapshots, b)
  }

  function Inserted(s: Source, row: Insert): Source {
    match row
    case InsertAudit(id, a) => s.(audits := s.audits[id := a])
    case InsertToken(requestId, c) => s.(tokens := s.tokens[requestId := c])
    case InsertStatement(line) =>
      s.(statements := s.statements[s.nextStatement := line], nextStatement := s.nextStatement + 1)
    case InsertSnapshot(b) =>
      s.(snapshots := s.snapshots[s.nextSnapshot := b], nextSnapshot := s.nextSnapshot + 1)
  }

  // ----- Trigger bodies; s is the source just after the insert -----

  function ReplaceStatements(s: Source, rows: map<nat, StatementRow>, requestId: string): map<nat, StatementRow> {
    rows + map id | id in s.statements && s.statements[id].requestId == Some(requestId)
                  :: StatementRow(s.statements[id], StatusOf(s.audits, s.statements[id]))
  }

  function AddAuditToInterval(row: IntervalRow, a: Audit): IntervalRow {
    if row.fromMs.Some? && InInterval(a, row.currency, row.fromMs.value, row.toMs) then
      row.(localEstimated := row.localEstimated + Coalesce(a.cost, 0.0),
           unknownCostRequests := row.unknownCostRequests + if a.cost.None? then 1 else 0)
    else row
  }

  ghost function AuditTrigger(s: Source, t: Tables, id: string, a: Audit): Tables
    requires id in s.audits
  {
    Tables(
      t.requests[id := RequestSource(s, id)],
      ReplaceStatements(s, t.statements, id),
      map b | b in t.intervals :: AddAuditToInterval(t.intervals[b], a))
  }

  function TokenTrigger(t: Tables, requestId: string, c: TokenComparison): Tables {
    if requestId !in t.requests then t
    else
      var row := t.requests[requestId];
      t.(requests := t.requests[requestId := row.(
                       tokenizerCompared := true,
                       tokenizerMismatch := TokenMismatch(c, row.inputTokens, row.outputTokens))])
  }

  function StatementTrigger(s: Source, t: Tables, id: nat): Tables
    requires id in s.statements
  {
    var line := s.statements[id];
    var status := StatusOf(s.audits, line);
    var statements := t.statements[id := StatementRow(line, status)];
    if status == Matched && line.requestId.value in t.requests then
      var row := t.requests[line.requestId.value];
      Tables(t.requests[line.requestId.value := row.(
               statementLines := row.statementLines + 1,
               supplierAmount := row.supplierAmount + line.amount)],
             statements, t.intervals)
    else
      t.(statements := statements)
  }

  ghost predicate IsNext(snapshots: map<nat, Snapshot>, b: nat, n: nat) {
    && b in snapshots && n in snapshots
    && snapshots[n].currency == snapshots[b].currency
    && snapshots[b].observedAtMs < snapshots[n].observedAtMs
    && forall q :: q in snapshots && snapshots[q].currency == snapshots[b].currency
                   && snapshots[b].observedAtMs < snapshots[q].observedAtMs
                   ==> snapshots[n].observedAtMs <= snapshots[q].observedAtMs
  }

  ghost function BalanceTrigger(s: Source, t: Tables, b: nat): Tables
    requires b in s.snapshots
  {
    var rows := t.intervals[b := IntervalSource(s, b)];
    if exists n :: IsNext(s.snapshots, b, n)
    then var n :| IsNext(s.snapshots, b, n); t.(intervals := rows[n := IntervalSource(s, n)])
    else t.(intervals := rows)
  }

  lemma NextIsSnapshot(s: Source, b: nat, n: nat)
    requires IsNext(s.snapshots, b, n)
    ensures n in s.snapshots
  {
  }

  // There is one successor at most, so a search for it finds the trigger's.
  lemma BalanceTriggerByNext(s: Source, t: Tables, b: nat, next: Option<nat>)
    requires WellFormed(s) && b in s.snapshots
    requires if next.Some? then IsNext(s.snapshots, b, next.value) else forall n :: !IsNext(s.snapshots, b, n)
    ensures var rows := t.intervals[b := IntervalSource(s, b)];
            BalanceTrigger(s, t, b)
            == t.(intervals := if next.Some? && next.value in s.snapshots
                               then rows[next.value := IntervalSource(s, next.value)] else rows)
  {
    hide IntervalSource;
    if next.Some? {
      assert forall n :: IsNext(s.snapshots, b, n) ==> n == next.value;
    }
  }

  ghost function Fired(s: Source, t: Tables, row: Insert): Tables {
    var after := Inserted(s, row);
    match row
    case InsertAudit(id, a) => AuditTrigger(after, t, id, a)
    case InsertToken(requestId, c) => TokenTrigger(t, requestId, c)
    case InsertStatement(_) => StatementTrigger(after, t, s.nextStatement)
    case InsertSnapshot(_) => BalanceTrigger(after, t, s.nextSnapshot)
  }

  // ----- What a view does not read does not change it -----

  lemma SameRequests(s: Source, after: Source)
    requires after.audits == s.audits && after.tokens == s.tokens && after.statements == s.statements
    ensures RequestView(after) == RequestView(s)
  {
    assert forall id :: id in s.audits ==> RequestSource(after, id) == RequestSource(s, id);
  }

  lemma SameIntervals(s: Source, after: Source)
    requires after.audits == s.audits && after.snapshots == s.snapshots
    ensures IntervalView(after) == IntervalView(s)
  {
    assert forall b :: b in s.snapshots ==> IntervalSource(after, b) == IntervalSource(s, b);
  }

  // ----- One audit row -----

  lemma AuditKeepsOtherRequests(s: Source, id: string, a: Audit, other: string)
    requires other in s.audits && other != id
    ensures RequestSource(s.(audits := s.audits[id := a]), other) == RequestSource(s, other)
  {
    hide Total;
    assert MatchedAmounts(s.audits[id := a], s.statements, other) == MatchedAmounts(s.audits, s.statements, other);
  }

  lemma AuditKeepsStatements(s: Source, id: string, a: Audit)
    ensures var after := s.(audits := s.audits[id := a]);
            ReplaceStatements(after, StatementView(s), id) == StatementView(after)
  {
    hide Total;
  }

  lemma AuditMovesKnownCosts(audits: map<string, Audit>, id: string, a: Audit, currency: string, fromMs: int, toMs: int)
    requires id !in audits
    ensures Total(KnownCosts(audits[id := a], currency, fromMs, toMs))
            == Total(KnownCosts(audits, currency, fromMs, toMs))
               + if InInterval(a, currency, fromMs, toMs) then Coalesce(a.cost, 0.0) else 0.0
  {
    hide Total;
    var costs := KnownCosts(audits, currency, fromMs, toMs);
    if InInterval(a, currency, fromMs, toMs) && a.cost.Some? {
      assert KnownCosts(audits[id := a], currency, fromMs, toMs) == costs[id := a.cost.value];
      TotalInsert(costs, id, a.cost.value);
    } else {
      assert KnownCosts(audits[id := a], currency, fromMs, toMs) == costs;
    }
  }

  lemma AuditMovesUnknownCosts(audits: map<string, Audit>, id: string, a: Audit, currency: string, fromMs: int, toMs: int)
    requires id !in audits
    ensures |UnknownCosts(audits[id := a], currency, fromMs, toMs)|
            == |UnknownCosts(audits, currency, fromMs, toMs)|
               + if InInterval(a, currency, fromMs, toMs) && a.cost.None? then 1 else 0
  {
    var unknown := UnknownCosts(audits, currency, fromMs, toMs);
    if InInterval(a, currency, fromMs, toMs) && a.cost.None? {
      assert UnknownCosts(audits[id := a], currency, fromMs, toMs) == unknown + {id};
    } else {
      assert UnknownCosts(audits[id := a], currency, fromMs, toMs) == unknown;
    }
  }

  // An audit moves the sums of exactly the intervals that contain it.
  lemma AuditMovesInterval(s: Source, id: string, a: Audit, b: nat)
    requires id !in s.audits && b in s.snapshots
    ensures IntervalSource(s.(audits := s.audits[id := a]), b) == AddAuditToInterval(IntervalSource(s, b), a)
  {
    hide Total, KnownCosts, UnknownCosts;
    var previous := Previous(s.snapshots, b);
    if previous.Some? {
      var from, to := s.snapshots[previous.value].observedAtMs, s.snapshots[b].observedAtMs;
      AuditMovesKnownCosts(s.audits, id, a, s.snapshots[b].currency, from, to);
      AuditMovesUnknownCosts(s.audits, id, a, s.snapshots[b].currency, from, to);
    }
  }

  lemma AuditMaintainsRequests(s: Source, id: string, a: Audit)
    requires id !in s.audits
    ensures var after := s.(audits := s.audits[id := a]);
            RequestView(s)[id := RequestSource(after, id)] == RequestView(after)
  {
    hide Total;
    var after := s.(audits := s.audits[id := a]);
    forall other | other in s.audits ensures RequestSource(after, other) == RequestSource(s, other) {
      AuditKeepsOtherRequests(s, id, a, other);
    }
  }

  lemma AuditTriggerMaintains(s: Source, id: string, a: Audit)
    requires id !in s.audits
    ensures var after := s.(audits := s.audits[id := a]);
            AuditTrigger(after, Views(s), id, a) == Views(after)
  {
    var after := s.(audits := s.audits[id := a]);
    AuditMaintainsRequests(s, id, a);
    AuditKeepsStatements(s, id, a);
    forall b | b in s.snapshots ensures IntervalSource(after, b) == AddAuditToInterval(IntervalSource(s, b), a) {
      AuditMovesInterval(s, id, a, b);
    }
    assert AuditTrigger(after, Views(s), id, a).intervals == IntervalView(after);
  }

  // ----- One token comparison, before or after its audit row -----

  lemma TokenTriggerMaintains(s: Source, requestId: string, c: TokenComparison)
    requires requestId !in s.tokens
    ensures TokenTrigger(Views(s), requestId, c) == Views(s.(tokens := s.tokens[requestId := c]))
  {
    var after := s.(tokens := s.tokens[requestId := c]);
    assert TokenTrigger(Views(s), requestId, c).requests == RequestView(after);
    SameIntervals(s, after);
  }

  // ----- One statement line, before or after its audit row -----

  lemma MatchedStatementMovesRequest(s: Source, id: nat, line: StatementLine)
    requires id !in s.statements && StatusOf(s.audits, line) == Matched
    ensures var after := s.(statements := s.statements[id := line]);
            var requestId := line.requestId.value;
            var row := RequestSource(s, requestId);
            RequestSource(after, requestId)
            == row.(statementLines := row.statementLines + 1, supplierAmount := row.supplierAmount + line.amount)
  {
    hide Total;
    var requestId := line.requestId.value;
    var amounts := MatchedAmounts(s.audits, s.statements, requestId);
    assert MatchedAmounts(s.audits, s.statements[id := line], requestId) == amounts[id := line.amount];
    TotalInsert(amounts, id, line.amount);
  }

  lemma StatementKeepsOtherRequests(s: Source, id: nat, line: StatementLine, other: string)
    requires id !in s.statements && other in s.audits
    requires StatusOf(s.audits, line) != Matched || line.requestId != Some(other)
    ensures RequestSource(s.(statements := s.statements[id := line]), other) == RequestSource(s, other)
  {
    hide Total;
    assert MatchedAmounts(s.audits, s.statements[id := line], other) == MatchedAmounts(s.audits, s.statements, other);
  }

  lemma StatementMaintainsRequest(s: Source, id: nat, line: StatementLine, other: string)
    requires id !in s.statements && other in s.audits
    ensures var after := s.(statements := s.statements[id := line]);
            var rows := StatementTrigger(after, Views(s), id).requests;
            other in rows && rows[other] == RequestSource(after, other)
  {
    hide RequestSource;
    if StatusOf(s.audits, line) == Matched && line.requestId == Some(other) {
      MatchedStatementMovesRequest(s, id, line);
    } else {
      StatementKeepsOtherRequests(s, id, line, other);
    }
  }

  lemma StatementMaintainsRequests(s: Source, id: nat, line: StatementLine)
    requires id !in s.statements
    ensures var after := s.(statements := s.statements[id := line]);
            StatementTrigger(after, Views(s), id).requests == RequestView(after)
  {
    hide RequestSource;
    var after := s.(statements := s.statements[id := line]);
    var rows := StatementTrigger(after, Views(s), id).requests;
    forall other | other in s.audits ensures other in rows && rows[other] == RequestSource(after, other) {
      StatementMaintainsRequest(s, id, line, other);
    }
    assert rows.Keys == s.audits.Keys;
  }

  lemma StatementMaintainsStatements(s: Source, id: nat, line: StatementLine)
    requires id !in s.statements
    ensures var after := s.(statements := s.statements[id := line]);
            StatementTrigger(after, Views(s), id).statements == StatementView(after)
            && StatementTrigger(after, Views(s), id).intervals == IntervalView(s)
  {
    hide RequestSource, IntervalSource;
  }

  lemma StatementTriggerMaintains(s: Source, id: nat, line: StatementLine)
    requires id !in s.statements
    ensures var after := s.(statements := s.statements[id := line]);
            StatementTrigger(after, Views(s), id) == Views(after)
  {
    hide StatementTrigger, RequestView, StatementView, IntervalView;
    var after := s.(statements := s.statements[id := line]);
    StatementMaintainsRequests(s, id, line);
    StatementMaintainsStatements(s, id, line);
    SameIntervals(s, after);
  }

  // ----- One balance snapshot, at any place in time -----

  ghost predicate NewSnapshot(snapshots: map<nat, Snapshot>, id: nat, snapshot: Snapshot) {
    id !in snapshots && UniqueSnapshots(snapshots) && UniqueSnapshots(snapshots[id := snapshot])
  }

  // A new snapshot moves the predecessor of itself and of its successor only.
  lemma SnapshotKeepsPrevious(snapshots: map<nat, Snapshot>, id: nat, snapshot: Snapshot, b: nat)
    requires NewSnapshot(snapshots, id, snapshot) && b in snapshots
    requires !IsNext(snapshots[id := snapshot], id, b)
    ensures Previous(snapshots[id := snapshot], b) == Previous(snapshots, b)
  {
    var after := snapshots[id := snapshot];
    if p: nat :| IsPrevious(after, b, p) {
      NewIsNotPrevious(snapshots, id, snapshot, b, p);
      PreviousIs(after, b, p);
      PreviousIs(snapshots, b, p);
    } else if p: nat :| IsPrevious(snapshots, b, p) {
      PreviousExists(after, b, p);
    }
  }

  lemma NewIsNotPrevious(snapshots: map<nat, Snapshot>, id: nat, snapshot: Snapshot, b: nat, p: nat)
    requires NewSnapshot(snapshots, id, snapshot) && b in snapshots
    requires IsPrevious(snapshots[id := snapshot], b, p) && !IsNext(snapshots[id := snapshot], id, b)
    ensures p != id && IsPrevious(snapshots, b, p)
  {
    var after := snapshots[id := snapshot];
    assert forall q :: q in snapshots ==> after[q] == snapshots[q];
  }

  lemma NextIsUnique(snapshots: map<nat, Snapshot>, b: nat, n: nat, m: nat)
    requires UniqueSnapshots(snapshots) && IsNext(snapshots, b, n) && IsNext(snapshots, b, m)
    ensures n == m
  {
    assert snapshots[n].observedAtMs == snapshots[m].observedAtMs;
  }

  lemma SnapshotKeepsInterval(s: Source, id: nat, snapshot: Snapshot, b: nat)
    requires NewSnapshot(s.snapshots, id, snapshot) && b in s.snapshots
    requires !IsNext(s.snapshots[id := snapshot], id, b)
    ensures IntervalSource(s.(snapshots := s.snapshots[id := snapshot]), b) == IntervalSource(s, b)
  {
    SnapshotKeepsPrevious(s.snapshots, id, snapshot, b);
  }

  // The trigger rewrites the rows of the new snapshot and of its successor.
  lemma BalanceTriggerRows(s: Source, t: Tables, id: nat, b: nat)
    requires UniqueSnapshots(s.snapshots) && id in s.snapshots
    ensures var rows := BalanceTrigger(s, t, id).intervals;
            && (b == id || IsNext(s.snapshots, id, b) ==> b in rows && rows[b] == IntervalSource(s, b))
            && (b != id && !IsNext(s.snapshots, id, b) ==> (b in rows <==> b in t.intervals) && (b in rows ==> rows[b] == t.intervals[b]))
  {
    hide Total, KnownCosts, UnknownCosts, Previous, IntervalBetween;
    if n: nat :| IsNext(s.snapshots, id, n) {
      forall m | IsNext(s.snapshots, id, m) ensures m == n {
        NextIsUnique(s.snapshots, id, m, n);
      }
    }
  }

  ghost predicate SnapshotInserted(s: Source, after: Source, id: nat, snapshot: Snapshot) {
    NewSnapshot(s.snapshots, id, snapshot)
    && after == s.(snapshots := s.snapshots[id := snapshot], nextSnapshot := after.nextSnapshot)
  }

  lemma IntervalIgnoresCounter(s: Source, after: Source, id: nat, snapshot: Snapshot, b: nat)
    requires SnapshotInserted(s, after, id, snapshot) && b in after.snapshots
    ensures IntervalSource(after, b) == IntervalSource(s.(snapshots := s.snapshots[id := snapshot]), b)
  {
    hide Total, KnownCosts, UnknownCosts, Previous;
  }

  lemma SnapshotMaintainsIntervals(s: Source, after: Source, id: nat, snapshot: Snapshot)
    requires SnapshotInserted(s, after, id, snapshot)
    ensures BalanceTrigger(after, Views(s), id).intervals == IntervalView(after)
  {
    hide Total, KnownCosts, UnknownCosts, Previous, IntervalSource, BalanceTrigger, RequestView, StatementView;
    var rows := BalanceTrigger(after, Views(s), id).intervals;
    forall b: nat ensures (b in rows <==> b in after.snapshots) && (b in rows ==> rows[b] == IntervalSource(after, b)) {
      BalanceTriggerRows(after, Views(s), id, b);
      if b in s.snapshots && !IsNext(after.snapshots, id, b) {
        SnapshotKeepsInterval(s, id, snapshot, b);
        IntervalIgnoresCounter(s, after, id, snapshot, b);
      }
    }
    assert rows == IntervalView(after);
  }

  lemma BalanceTriggerMaintains(s: Source, after: Source, id: nat, snapshot: Snapshot)
    requires SnapshotInserted(s, after, id, snapshot)
    ensures BalanceTrigger(after, Views(s), id) == Views(after)
  {
    SnapshotMaintainsIntervals(s, after, id, snapshot);
    SameRequests(s, after);
    hide RequestView, StatementView, IntervalView, NewSnapshot, IntervalSource;
  }

  lemma InsertKeepsWellFormed(s: Source, row: Insert)
    requires WellFormed(s) && Accepted(s, row)
    ensures WellFormed(Inserted(s, row))
  {
  }

  // ----- Whole runs -----

  datatype Database = Database(source: Source, tables: Tables)

  // One committed transaction: the insert with its trigger, or nothing.
  ghost function Step(d: Database, row: Insert): Database {
    if Accepted(d.source, row)
    then Database(Inserted(d.source, row), Fired(d.source, d.tables, row))
    else d
  }

  ghost function Run(d: Database, rows: seq<Insert>): Database {
    if rows == [] then d else Step(Run(d, rows[..|rows| - 1]), rows[|rows| - 1])
  }

  ghost predicate Synchronized(d: Database) {
    WellFormed(d.source) && d.tables == Views(d.source)
  }

  lemma ViewsIgnoreCounters(s: Source, statement: nat, snapshot: nat)
    ensures Views(s.(nextStatement := statement, nextSnapshot := snapshot)) == Views(s)
  {
    var t := s.(nextStatement := statement, nextSnapshot := snapshot);
    SameRequests(s, t);
    SameIntervals(s, t);
  }

  lemma StatementIgnoresCounter(s: Source, after: Source, t: Tables, id: nat)
    requires id in s.statements && after.audits == s.audits && after.statements == s.statements
    ensures StatementTrigger(after, t, id) == StatementTrigger(s, t, id)
  {
  }

  lemma StatementInsertMaintains(s: Source, line: StatementLine)
    requires WellFormed(s) && Accepted(s, InsertStatement(line))
    ensures Fired(s, Views(s), InsertStatement(line)) == Views(Inserted(s, InsertStatement(line)))
  {
    hide Views, RequestSource, IntervalSource, StatementTrigger;
    StatementTriggerMaintains(s, s.nextStatement, line);
    var after := s.(statements := s.statements[s.nextStatement := line]);
    StatementIgnoresCounter(after, Inserted(s, InsertStatement(line)), Views(s), s.nextStatement);
    ViewsIgnoreCounters(after, s.nextStatement + 1, s.nextSnapshot);
    assert Inserted(s, InsertStatement(line)) == after.(nextStatement := s.nextStatement + 1, nextSnapshot := s.nextSnapshot);
  }

  lemma SnapshotInsertMaintains(s: Source, b: Snapshot)
    requires WellFormed(s) && Accepted(s, InsertSnapshot(b))
    ensures Fired(s, Views(s), InsertSnapshot(b)) == Views(Inserted(s, InsertSnapshot(b)))
  {
    InsertKeepsWellFormed(s, InsertSnapshot(b));
    hide Views, RequestSource, IntervalSource, BalanceTrigger;
    BalanceTriggerMaintains(s, Inserted(s, InsertSnapshot(b)), s.nextSnapshot, b);
  }

  lemma TriggerMaintainsViews(s: Source, row: Insert)
    requires WellFormed(s) && Accepted(s, row)
    ensures WellFormed(Inserted(s, row)) && Fired(s, Views(s), row) == Views(Inserted(s, row))
  {
    hide Total, MatchedAmounts, KnownCosts, UnknownCosts, Previous, IntervalBetween, RequestSource, StatusOf;
    InsertKeepsWellFormed(s, row);
    match row
    case InsertAudit(id, a) => AuditTriggerMaintains(s, id, a);
    case InsertToken(requestId, c) => TokenTriggerMaintains(s, requestId, c);
    case InsertStatement(line) => StatementInsertMaintains(s, line);
    case InsertSnapshot(b) => SnapshotInsertMaintains(s, b);
  }

  lemma StepMaintainsViews(d: Database, row: Insert)
    requires Synchronized(d)
    ensures Synchronized(Step(d, row))
  {
    if Accepted(d.source, row) {
      TriggerMaintainsViews(d.source, row);
    }
  }

  // After any sequence of inserts, in any order, the copies equal the views.
  lemma {:induction false} MaterializedTablesEqualViews(d: Database, rows: seq<Insert>)
    requires Synchronized(d)
    ensures Synchronized(Run(d, rows))
  {
    if rows != [] {
      MaterializedTablesEqualViews(d, rows[..|rows| - 1]);
      StepMaintainsViews(Run(d, rows[..|rows| - 1]), rows[|rows| - 1]);
    }
  }

  lemma EmptyIsSynchronized()
    ensures Synchronized(Database(EMPTY_SOURCE, EMPTY_TABLES))
  {
    assert RequestView(EMPTY_SOURCE) == map[] && StatementView(EMPTY_SOURCE) == map[] && IntervalView(EMPTY_SOURCE) == map[];
  }

  // In particular from an empty ledger.
  lemma TablesEqualViewsFromEmpty(rows: seq<Insert>)
    ensures WellFormed(Run(Database(EMPTY_SOURCE, EMPTY_TABLES), rows).source)
    ensures Run(Database(EMPTY_SOURCE, EMPTY_TABLES), rows).tables
            == Views(Run(Database(EMPTY_SOURCE, EMPTY_TABLES), rows).source)
  {
    EmptyIsSynchronized();
    hide Step, WellFormed, Views;
    MaterializedTablesEqualViews(Database(EMPTY_SOURCE, EMPTY_TABLES), rows);
  }

  predicate SameTable(x: Insert, y: Insert) {
    (x.InsertAudit? && y.InsertAudit?) || (x.InsertToken? && y.InsertToken?)
    || (x.InsertStatement? && y.InsertStatement?) || (x.InsertSnapshot? && y.InsertSnapshot?)
  }

  // A token comparison or a statement may arrive before its audit row, and an
  // audit before the snapshots around it: the result is the same either way.
  lemma ArrivalOrderIsIrrelevant(d: Database, x: Insert, y: Insert)
    requires Synchronized(d) && !SameTable(x, y)
    ensures Step(Step(d, x), y) == Step(Step(d, y), x)
  {
    SourcesCommute(d, x, y);
    StepMaintainsViews(d, x);
    StepMaintainsViews(d, y);
    StepMaintainsViews(Step(d, x), y);
    StepMaintainsViews(Step(d, y), x);
    hide Step, Views, WellFormed, SameTable;
  }

  lemma SourcesCommute(d: Database, x: Insert, y: Insert)
    requires !SameTable(x, y)
    ensures Step(Step(d, x), y).source == Step(Step(d, y), x).source
  {
    hide Fired, SnapshotExists;
  }

  // ----- The ledger object -----

  // SELECT ... ORDER BY observed_at_ms DESC LIMIT 1 over the earlier snapshots.
  method SelectPrevious(s: Source, b: nat) returns (previous: Option<nat>)
    requires WellFormed(s) && b in s.snapshots
    ensures previous == Previous(s.snapshots, b)
  {
    previous := None;
    var rest := s.snapshots.Keys;
    while rest != {}
      invariant rest <= s.snapshots.Keys
      invariant previous.None? ==> forall q :: q in Earlier(s.snapshots, b) ==> q in rest
      invariant previous.Some? ==> previous.value in Earlier(s.snapshots, b)
      invariant previous.Some? ==> forall q :: q in Earlier(s.snapshots, b) ==>
                  q in rest || s.snapshots[q].observedAtMs <= s.snapshots[previous.value].observedAtMs
    {
      var q :| q in rest;
      if s.snapshots[q].currency == s.snapshots[b].currency && s.snapshots[q].observedAtMs < s.snapshots[b].observedAtMs
         && (previous.None? || s.snapshots[previous.value].observedAtMs < s.snapshots[q].observedAtMs)
      {
        previous := Some(q);
      }
      rest := rest - {q};
    }
    if previous.None? {
      assert forall p :: IsPrevious(s.snapshots, b, p) ==> p in Earlier(s.snapshots, b);
    } else {
      assert IsPrevious(s.snapshots, b, previous.value) by {
        forall q | q in s.snapshots && s.snapshots[q].currency == s.snapshots[b].currency
                   && s.snapshots[q].observedAtMs < s.snapshots[b].observedAtMs
          ensures s.snapshots[q].observedAtMs <= s.snapshots[previous.value].observedAtMs
        {
          assert q in Earlier(s.snapshots, b);
        }
      }
      PreviousIs(s.snapshots, b, previous.value);
    }
  }

  ghost function Later(snapshots: map<nat, Snapshot>, b: nat): set<nat>
    requires b in snapshots
  {
    set q | q in snapshots && snapshots[q].currency == snapshots[b].currency
            && snapshots[b].observedAtMs < snapshots[q].observedAtMs
  }

  method SelectNext(s: Source, b: nat) returns (next: Option<nat>)
    requires b in s.snapshots
    ensures next.Some? ==> IsNext(s.snapshots, b, next.value)
    ensures next.None? ==> forall n :: !IsNext(s.snapshots, b, n)
  {
    next := None;
    var rest := s.snapshots.Keys;
    while rest != {}
      invariant rest <= s.snapshots.Keys
      invariant next.Some? ==> next.value in Later(s.snapshots, b)
      invariant forall q :: q in Later(s.snapshots, b) && q !in rest ==>
                              next.Some? && s.snapshots[next.value].observedAtMs <= s.snapshots[q].observedAtMs
    {
      var q :| q in rest;
      if s.snapshots[q].currency == s.snapshots[b].currency && s.snapshots[b].observedAtMs < s.snapshots[q].observedAtMs
         && (next.None? || s.snapshots[q].observedAtMs < s.snapshots[next.value].observedAtMs)
      {
        next := Some(q);
      }
      rest := rest - {q};
    }
  }

  method SelectInterval(s: Source, b: nat) returns (row: IntervalRow)
    requires WellFormed(s) && b in s.snapshots
    ensures row == IntervalSource(s, b)
  {
    var to := s.snapshots[b];
    var previous := SelectPrevious(s, b);
    if previous.None? {
      row := IntervalRow(None, to.observedAtMs, to.currency, None, 0.0, 0);
    } else {
      var from := s.snapshots[previous.value];
      var estimated := SumRows(KnownCosts(s.audits, to.currency, from.observedAtMs, to.observedAtMs));
      row := IntervalRow(Some(from.observedAtMs), to.observedAtMs, to.currency, Some(to.total - from.total), estimated,
                         |UnknownCosts(s.audits, to.currency, from.observedAtMs, to.observedAtMs)|);
    }
  }

  method SelectRequest(s: Source, id: string) returns (row: RequestRow)
    requires id in s.audits
    ensures row == RequestSource(s, id)
  {
    var a := s.audits[id];
    var amounts := MatchedAmounts(s.audits, s.statements, id);
    var supplier := SumRows(amounts);
    row := RequestRow(a.timestampMs, Coalesce(a.currency, ""), a.model, a.cost, a.inputTokens, a.outputTokens,
                      |amounts|, supplier, id in s.tokens,
                      id in s.tokens && TokenMismatch(s.tokens[id], a.inputTokens, a.outputTokens));
  }

  method BackfillRequests(s: Source) returns (requests: map<string, RequestRow>)
    ensures requests == RequestView(s)
  {
    hide RequestSource;
    requests := map[];
    var ids := s.audits.Keys;
    while ids != {}
      invariant ids <= s.audits.Keys
      invariant requests == map id | id in s.audits && id !in ids :: RequestSource(s, id)
    {
      var id :| id in ids;
      var row := SelectRequest(s, id);
      requests := requests[id := row];
      ids := ids - {id};
    }
    assert requests == RequestView(s);
  }

  method BackfillIntervals(s: Source) returns (intervals: map<nat, IntervalRow>)
    requires WellFormed(s)
    ensures intervals == IntervalView(s)
  {
    hide IntervalSource, WellFormed;
    intervals := map[];
    var snapshots := s.snapshots.Keys;
    while snapshots != {}
      invariant snapshots <= s.snapshots.Keys
      invariant intervals == map b | b in s.snapshots && b !in snapshots :: IntervalSource(s, b)
    {
      var b :| b in snapshots;
      var row := SelectInterval(s, b);
      intervals := intervals[b := row];
      snapshots := snapshots - {b};
    }
    assert intervals == IntervalView(s);
  }

  class Ledger {
    var source: Source
    var tables: Tables
    var initialized: bool

    ghost function Value(): Database
      reads this
    {
      Database(source, tables)
    }

    ghost predicate Valid()
      reads this
    {
      initialized && Synchronized(Value())
    }

    // Opening a database that already holds source rows backfills once;
    // reopening an initialized one changes nothing.
    constructor Open(source: Source, tables: Tables, initialized: bool)
      requires WellFormed(source)
      requires if initialized then tables == Views(source) else tables == EMPTY_TABLES
      ensures Valid() && this.source == source && this.tables == Views(source)
    {
      this.source, this.tables, this.initialized := source, tables, initialized;
      new;
      if !initialized {
        Backfill();
      }
    }

    method Backfill()
      requires WellFormed(source) && tables == EMPTY_TABLES
      modifies this
      ensures source == old(source) && tables == Views(source) && initialized
    {
      hide RequestSource, IntervalSource, WellFormed;
      var requests := BackfillRequests(source);
      var intervals := BackfillIntervals(source);
      tables := Tables(requests, StatementView(source), intervals);
      initialized := true;
    }

    method AppendAudit(id: string, a: Audit) returns (accepted: bool)
      requires Valid()
      modifies this
      ensures Valid() && Value() == Step(old(Value()), InsertAudit(id, a))
      ensures accepted == (id !in old(source).audits)
    {
      hide RequestSource, Views, WellFormed;
      StepMaintainsViews(Value(), InsertAudit(id, a));
      accepted := id !in source.audits;
      if accepted {
        source := source.(audits := source.audits[id := a]);
        var row := SelectRequest(source, id);
        tables := tables.(requests := tables.requests[id := row]);
        tables := tables.(statements := ReplaceStatements(source, tables.statements, id));
        tables := tables.(intervals := map b | b in tables.intervals :: AddAuditToInterval(tables.intervals[b], a));
      }
    }

    method AppendTokenComparison(requestId: string, c: TokenComparison) returns (accepted: bool)
      requires Valid()
      modifies this
      ensures Valid() && Value() == Step(old(Value()), InsertToken(requestId, c))
      ensures accepted == (requestId != "" && c.estimatedInput >= 0 && c.estimatedOutput >= 0 && requestId !in old(source).tokens)
    {
      StepMaintainsViews(Value(), InsertToken(requestId, c));
      accepted := ValidComparison(requestId, c) && requestId !in source.tokens;
      if accepted {
        source := source.(tokens := source.tokens[requestId := c]);
        if requestId in tables.requests {
          var row := tables.requests[requestId];
          tables := tables.(requests := tables.requests[requestId := row.(
            tokenizerCompared := true, tokenizerMismatch := TokenMismatch(c, row.inputTokens, row.outputTokens))]);
        }
      }
    }

    method AppendStatementLine(line: StatementLine) returns (accepted: bool)
      requires Valid()
      modifies this
      ensures Valid() && Value() == Step(old(Value()), InsertStatement(line))
      ensures accepted == (0 <= line.periodStartMs < line.periodEndMs && line.currency != "" && line.amount >= 0.0)
    {
      hide Total, MatchedAmounts, RequestView, IntervalView;
      StepMaintainsViews(Value(), InsertStatement(line));
      accepted := ValidLine(line);
      if !accepted {
        return;
      }
      var id := source.nextStatement;
      source := source.(statements := source.statements[id := line], nextStatement := id + 1);
      tables := tables.(statements := tables.statements[id := StatementRow(line, StatusOf(source.audits, line))]);
      if line.requestId.Some? && line.requestId.value in tables.requests && tables.statements[id].status == Matched {
        var row := tables.requests[line.requestId.value];
        tables := tables.(requests := tables.requests[line.requestId.value := row.(
          statementLines := row.statementLines + 1, supplierAmount := row.supplierAmount + line.amount)]);
      }
    }

    method AppendBalanceSnapshot(snapshot: Snapshot) returns (accepted: bool)
      requires Valid()
      modifies this
      ensures Valid() && Value() == Step(old(Value()), InsertSnapshot(snapshot))
      ensures accepted == (ValidSnapshot(snapshot) && !SnapshotExists(old(source).snapshots, snapshot))
    {
      hide IntervalSource, SnapshotExists, BalanceTrigger, WellFormed, Views, IsNext;
      StepMaintainsViews(Value(), InsertSnapshot(snapshot));
      accepted := ValidSnapshot(snapshot) && !SnapshotExists(source.snapshots, snapshot);
      if accepted {
        ghost var before := Value();
        var id := source.nextSnapshot;
        source := source.(snapshots := source.snapshots[id := snapshot], nextSnapshot := id + 1);
        InsertKeepsWellFormed(before.source, InsertSnapshot(snapshot));
        var row := SelectInterval(source, id);
        var next := SelectNext(source, id);
        BalanceTriggerByNext(source, tables, id, next);
        tables := tables.(intervals := tables.intervals[id := row]);
        if next.Some? {
          NextIsSnapshot(source, id, next.value);
          row := SelectInterval(source, next.value);
          tables := tables.(intervals := tables.intervals[next.value := row]);
        }
      }
    }
  }
}
