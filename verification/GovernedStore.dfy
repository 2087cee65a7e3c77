/** The governed trace store (c3r/telemetry/governed_store.py). Each BEGIN IMMEDIATE
    transaction is one atomic step; the SQL tables are sequences of rows. */
module GovernedStore {
  import opened Schema
  import opened Ranking
  import opened Unicode
  import opened IsoTime
  import opened Trace
  import opened TraceLedger

  const RETENTION_DAYS: nat := 30

  type Instant = t: DateTime | Valid(t) witness DateTime(1, 1, 1, 0, 0, 0, 0)

  datatype Payload = Payload(collectedAt: string, sourceId: string, taskId: string, trace: DecisionTrace)

  datatype Header = Header(runId: string, collectedAt: string)

  /** The approved tasks of each source, and the foreign functions: hashing and JSON. */
  datatype Config = Config(
    grants: map<string, set<string>>,
    prims: Primitives,
    dumps: Payload -> Text,
    header: Text -> Option<Header>)

  /** Canonical JSON re-encodes to itself and keeps the two fields that `verify` reads back. */
  ghost predicate FaithfulJson(cfg: Config) {
    && HexDigests(cfg.prims.sha256)
    && forall p: Payload :: PassesRedaction(p.trace) ==>
         && cfg.prims.recode(cfg.dumps(p)) == Some(cfg.dumps(p))
         && cfg.header(cfg.dumps(p)) == Some(Header(p.trace.runId, p.collectedAt))
         && Encodable(cfg.dumps(p))
  }

  datatype Row = Row(sequence: nat, runId: string, collectedAt: string, record: LedgerRecord)

  datatype AuditEntry = AuditEntry(sequence: nat, purgedAt: string, recordCount: nat, checkpointHash: Text)

  /** The tables: `metadata`, `records`, `sqlite_sequence` and `purge_audit`. */
  datatype Store = Store(
    checkpoint: Text,
    lastCollectedAt: string,
    rows: seq<Row>,
    lastSequence: nat,
    audit: seq<AuditEntry>)

  const EMPTY: Store := Store(GENESIS, "", [], 0, [])

  // ----- Append

  datatype Refusal =
    | UnapprovedSource | FailedRedaction | ClockNotUtc | ClockOutOfRange
    | ClockBackwards | PurgeOverdue | DuplicateRun

  datatype AppendResult = Appended(record: LedgerRecord) | Refused(reason: Refusal)

  predicate Approved(cfg: Config, sourceId: string, taskId: string) {
    sourceId in cfg.grants && taskId in cfg.grants[sourceId]
  }

  /** `collected_at <= cutoff`, as text. */
  predicate AtOrBefore(row: Row, cutoff: string) {
    !StringLess(cutoff, row.collectedAt)
  }

  predicate AnyAtOrBefore(rows: seq<Row>, cutoff: string) {
    exists i :: 0 <= i < |rows| && AtOrBefore(rows[i], cutoff)
  }

  predicate HasRun(rows: seq<Row>, runId: string) {
    exists i :: 0 <= i < |rows| && rows[i].runId == runId
  }

  function Records(rows: seq<Row>): seq<LedgerRecord> {
    seq(|rows|, i requires 0 <= i < |rows| => rows[i].record)
  }

  /** The hash a new record must follow. */
  function LastHash(s: Store): Text {
    if s.rows != [] then s.rows[|s.rows| - 1].record.recordHash else s.checkpoint
  }

  function AppendOutcome(cfg: Config, s: Store, clock: Option<Instant>, sourceId: string, taskId: string, trace: DecisionTrace): AppendResult {
    if !Approved(cfg, sourceId, taskId) then Refused(UnapprovedSource)
    else if !PassesRedaction(trace) then Refused(FailedRedaction)
    else if clock.None? then Refused(ClockNotUtc)
    else
      var cutoff := MinusDays(clock.value, RETENTION_DAYS);
      if cutoff.None? then Refused(ClockOutOfRange)
      else
        MinusDaysCounts(clock.value, RETENTION_DAYS);
        InsertOutcome(cfg, s, IsoText(clock.value), IsoText(cutoff.value), sourceId, taskId, trace)
  }

  /** The part of an append inside its transaction. */
  function InsertOutcome(cfg: Config, s: Store, collectedAt: string, cutoff: string, sourceId: string, taskId: string, trace: DecisionTrace): AppendResult {
    if StringLess(collectedAt, s.lastCollectedAt) then Refused(ClockBackwards)
    else if AnyAtOrBefore(s.rows, cutoff) then Refused(PurgeOverdue)
    else if HasRun(s.rows, trace.runId) then Refused(DuplicateRun)
    else
      var payload := cfg.dumps(Payload(collectedAt, sourceId, taskId, trace));
      Appended(LedgerRecord(LastHash(s), RecordHash(cfg.prims, LastHash(s), payload), payload))
  }

  function AfterAppend(s: Store, outcome: AppendResult, collectedAt: string, runId: string): Store {
    match outcome
    case Refused(_) => s
    case Appended(record) =>
      s.(rows := s.rows + [Row(s.lastSequence + 1, runId, collectedAt, record)],
         lastSequence := s.lastSequence + 1,
         lastCollectedAt := collectedAt)
  }

  // ----- Purge

  function Expired(rows: seq<Row>, cutoff: string): seq<Row> {
    if rows == [] then []
    else Expired(rows[..|rows| - 1], cutoff) + if AtOrBefore(rows[|rows| - 1], cutoff) then [rows[|rows| - 1]] else []
  }

  /** `DELETE FROM records WHERE sequence <= last`. */
  function DeleteThrough(rows: seq<Row>, last: nat): seq<Row> {
    if rows == [] then []
    else DeleteThrough(rows[..|rows| - 1], last) + if rows[|rows| - 1].sequence <= last then [] else [rows[|rows| - 1]]
  }

  /** The text of the instant thirty days before the clock's; `None` for a clock the store cannot use. */
  function CutoffOf(clock: Option<Instant>): (r: Option<string>)
    ensures r.Some? ==> clock.Some?
  {
    if clock.None? || MinusDays(clock.value, RETENTION_DAYS).None? then None
    else
      MinusDaysCounts(clock.value, RETENTION_DAYS);
      Some(IsoText(MinusDays(clock.value, RETENTION_DAYS).value))
  }

  /** `SELECT ... WHERE collected_at <= cutoff ORDER BY sequence`. */
  method SelectExpired(rows: seq<Row>, cutoff: string) returns (expired: seq<Row>)
    ensures expired == Expired(rows, cutoff)
  {
    expired := [];
    for i := 0 to |rows|
      invariant expired == Expired(rows[..i], cutoff)
    {
      assert rows[..i + 1][..i] == rows[..i];
      if !StringLess(cutoff, rows[i].collectedAt) {
        expired := expired + [rows[i]];
      }
    }
    assert rows[..|rows|] == rows;
  }

  function AfterPurge(s: Store, now: string, cutoff: string): Store {
    var expired := Expired(s.rows, cutoff);
    if expired == [] then s
    else
      var last := expired[|expired| - 1];
      s.(rows := DeleteThrough(s.rows, last.sequence),
         checkpoint := last.record.recordHash,
         audit := s.audit + [AuditEntry(|s.audit| + 1, now, |expired|, last.record.recordHash)])
  }

  // ----- Verification

  /** One row of `_verified_head`: it follows `previous` and decodes to what its columns say. */
  predicate RowVerifies(cfg: Config, previous: Text, row: Row) {
    && row.record.previousHash == previous
    && cfg.header(row.record.canonicalJson) == Some(Header(row.runId, row.collectedAt))
    && cfg.prims.recode(row.record.canonicalJson) == Some(row.record.canonicalJson)
    && RecordHash(cfg.prims, previous, row.record.canonicalJson) == row.record.recordHash
  }

  predicate RowHolds(cfg: Config, checkpoint: Text, rows: seq<Row>, i: nat)
    requires i < |rows|
  {
    RowVerifies(cfg, HashBefore(checkpoint, Records(rows), i), rows[i])
  }

  predicate Verifies(cfg: Config, s: Store) {
    && (s.rows != [] ==> s.rows[|s.rows| - 1].collectedAt == s.lastCollectedAt)
    && (s.rows != [] ==> s.rows[|s.rows| - 1].sequence == s.lastSequence)
    && forall i :: 0 <= i < |s.rows| ==> RowHolds(cfg, s.checkpoint, s.rows, i)
  }

  datatype Head = Head(sequence: nat, hash: Text)

  class GovernedTraceStore {
    const cfg: Config
    var checkpoint: Text
    var lastCollectedAt: string
    var rows: seq<Row>
    var lastSequence: nat
    var audit: seq<AuditEntry>

    function State(): Store
      reads this
    {
      Store(checkpoint, lastCollectedAt, rows, lastSequence, audit)
    }

    constructor (cfg: Config)
      ensures this.cfg == cfg && State() == EMPTY
    {
      this.cfg := cfg;
      checkpoint, lastCollectedAt, rows, lastSequence, audit := GENESIS, "", [], 0, [];
    }

    /** `append`. */
    method Append(clock: Option<Instant>, trace: DecisionTrace, sourceId: string, taskId: string) returns (outcome: AppendResult)
      modifies this
      ensures outcome == AppendOutcome(cfg, old(State()), clock, sourceId, taskId, trace)
      ensures State() == AfterAppend(old(State()), outcome, if clock.Some? then IsoText(clock.value) else "", trace.runId)
    {
      if sourceId !in cfg.grants || taskId !in cfg.grants[sourceId] {
        return Refused(UnapprovedSource);
      }
      if !PassesRedaction(trace) {
        return Refused(FailedRedaction);
      }
      if clock.None? {
        return Refused(ClockNotUtc);
      }
      var collectedAt := IsoText(clock.value);
      var cutoff := MinusDays(clock.value, RETENTION_DAYS);
      MinusDaysCounts(clock.value, RETENTION_DAYS);
      if cutoff.None? {
        return Refused(ClockOutOfRange);
      }
      outcome := Insert(collectedAt, IsoText(cutoff.value), trace, sourceId, taskId);
    }

    /** The transaction of `append`. */
    method Insert(collectedAt: string, cutoff: string, trace: DecisionTrace, sourceId: string, taskId: string) returns (outcome: AppendResult)
      modifies this
      ensures outcome == InsertOutcome(cfg, old(State()), collectedAt, cutoff, sourceId, taskId, trace)
      ensures State() == AfterAppend(old(State()), outcome, collectedAt, trace.runId)
    {
      if StringLess(collectedAt, lastCollectedAt) {
        return Refused(ClockBackwards);
      }
      if AnyAtOrBefore(rows, cutoff) {
        return Refused(PurgeOverdue);
      }
      var payload := cfg.dumps(Payload(collectedAt, sourceId, taskId, trace));
      var previous := if rows != [] then rows[|rows| - 1].record.recordHash else checkpoint;
      var record := LedgerRecord(previous, RecordHash(cfg.prims, previous, payload), payload);
      if HasRun(rows, trace.runId) {
        return Refused(DuplicateRun);
      }
      rows := rows + [Row(lastSequence + 1, trace.runId, collectedAt, record)];
      lastSequence := lastSequence + 1;
      lastCollectedAt := collectedAt;
      return Appended(record);
    }

    /** `purge_expired`; `None` is a clock the store cannot use. */
    method PurgeExpired(clock: Option<Instant>) returns (count: Option<nat>)
      modifies this
      ensures count.None? <==> CutoffOf(clock).None?
      ensures count.None? ==> State() == old(State())
      ensures count.Some? ==>
                && count.value == |Expired(old(rows), CutoffOf(clock).value)|
                && State() == AfterPurge(old(State()), IsoText(clock.value), CutoffOf(clock).value)
    {
      var earlier := CutoffOf(clock);
      if earlier.None? {
        return None;
      }
      var cutoff := earlier.value;
      var removed := PurgeThrough(IsoText(clock.value), cutoff);
      return Some(removed);
    }

    /** The transaction of `purge_expired`, with its two texts. */
    method PurgeThrough(now: string, cutoff: string) returns (count: nat)
      modifies this
      ensures count == |Expired(old(rows), cutoff)|
      ensures State() == AfterPurge(old(State()), now, cutoff)
    {
      var expired := SelectExpired(rows, cutoff);
      if expired == [] {
        return 0;
      }
      var last := expired[|expired| - 1];
      rows := DeleteThrough(rows, last.sequence);
      checkpoint := last.record.recordHash;
      audit := audit + [AuditEntry(|audit| + 1, now, |expired|, last.record.recordHash)];
      return |expired|;
    }

    /** `_verified_head`. */
    method VerifiedHead() returns (head: Option<Head>)
      ensures head == if Verifies(cfg, State()) then Some(Head(lastSequence, LastHash(State()))) else None
    {
      if rows != [] && rows[|rows| - 1].collectedAt != lastCollectedAt {
        return None;
      }
      if rows != [] && rows[|rows| - 1].sequence != lastSequence {
        return None;
      }
      var previous := checkpoint;
      for i := 0 to |rows|
        invariant previous == HashBefore(checkpoint, Records(rows), i)
        invariant forall j :: 0 <= j < i ==> RowHolds(cfg, checkpoint, rows, j)
      {
        if !RowVerifies(cfg, previous, rows[i]) {
          assert !RowHolds(cfg, checkpoint, rows, i);
          return None;
        }
        previous := rows[i].record.recordHash;
      }
      return Some(Head(lastSequence, previous));
    }
  }
}
