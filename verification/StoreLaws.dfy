/** What every reachable state of the governed store satisfies. A ghost history lists every
    trace ever admitted; purging may forget rows but never rewrites that history. */
module StoreLaws {
  import opened Schema
  import opened Ranking
  import opened Unicode
  import opened IsoTime
  import opened Trace
  import opened TraceLedger
  import opened GovernedStore

  /** An admitted trace: its row, and the instant and grant it was admitted under. */
  datatype Entry = Entry(row: Row, at: Instant, sourceId: string, taskId: string, trace: DecisionTrace)

  function RowsOf(h: seq<Entry>): seq<Row> {
    seq(|h|, i requires 0 <= i < |h| => h[i].row)
  }

  function ChainOf(h: seq<Entry>): seq<LedgerRecord> {
    seq(|h|, i requires 0 <= i < |h| => h[i].row.record)
  }

  predicate EntryHolds(cfg: Config, h: seq<Entry>, i: nat)
    requires i < |h|
  {
    EntryOk(cfg, h[i], i + 1)
  }

  predicate EntryOk(cfg: Config, e: Entry, sequence: nat) {
    && e.row.sequence == sequence
    && e.row.runId == e.trace.runId
    && e.row.collectedAt == IsoText(e.at)
    && e.row.record.canonicalJson == cfg.dumps(Payload(e.row.collectedAt, e.sourceId, e.taskId, e.trace))
    && Approved(cfg, e.sourceId, e.taskId) && PassesRedaction(e.trace)
  }

  predicate NotLater(h: seq<Entry>, i: nat, j: nat)
    requires i < |h| && j < |h|
  {
    Micros(h[i].at) <= Micros(h[j].at)
  }

  predicate InTimeOrder(h: seq<Entry>) {
    forall i, j :: 0 <= i < j < |h| ==> NotLater(h, i, j)
  }

  /** Numbered without gaps, approved and redacted, never going back in time, and one
      unbroken chain from genesis. */
  predicate Sound(cfg: Config, h: seq<Entry>) {
    && (forall i :: 0 <= i < |h| ==> EntryHolds(cfg, h, i))
    && InTimeOrder(h)
    && Chain(cfg.prims, GENESIS, ChainOf(h))
  }

  function PurgedCount(audit: seq<AuditEntry>): nat {
    if audit == [] then 0 else PurgedCount(audit[..|audit| - 1]) + audit[|audit| - 1].recordCount
  }

  /** The tables hold the part of the history that has not been purged. */
  predicate Represents(s: Store, h: seq<Entry>) {
    && |s.rows| <= |h|
    && s.rows == RowsOf(h)[|h| - |s.rows|..]
    && s.lastSequence == |h|
    && s.checkpoint == HashBefore(GENESIS, ChainOf(h), |h| - |s.rows|)
    && s.lastCollectedAt == (if h == [] then "" else h[|h| - 1].row.collectedAt)
    && PurgedCount(s.audit) + |s.rows| == |h|
  }

  predicate Inv(cfg: Config, s: Store, h: seq<Entry>) {
    Sound(cfg, h) && Represents(s, h)
  }

  // ----- Append

  lemma LastHashIsHead(s: Store, h: seq<Entry>)
    requires Represents(s, h)
    ensures LastHash(s) == HeadHash(GENESIS, ChainOf(h))
  {
    if s.rows != [] {
      assert s.rows[|s.rows| - 1] == RowsOf(h)[|h| - 1];
    }
  }

  /** The history after an append. */
  function Recorded(h: seq<Entry>, s: Store, outcome: AppendResult, clock: Option<Instant>, sourceId: string, taskId: string, trace: DecisionTrace): seq<Entry> {
    if outcome.Appended? && clock.Some?
    then h + [EntryFor(s, outcome.record, clock.value, sourceId, taskId, trace)]
    else h
  }

  predicate NoneLater(h: seq<Entry>, now: Instant) {
    forall i :: 0 <= i < |h| ==> Micros(h[i].at) <= Micros(now)
  }

  lemma TimeOrderGrows(h: seq<Entry>, e: Entry)
    requires InTimeOrder(h) && NoneLater(h, e.at)
    ensures InTimeOrder(h + [e])
  {
    forall i, j | 0 <= i < j < |h + [e]|
      ensures NotLater(h + [e], i, j)
    {
      assert j < |h| ==> NotLater(h, i, j);
    }
  }

  lemma LastNotLater(cfg: Config, s: Store, h: seq<Entry>, now: Instant)
    requires Inv(cfg, s, h) && !StringLess(IsoText(now), s.lastCollectedAt) && h != []
    ensures Micros(h[|h| - 1].at) <= Micros(now)
  {
    EntryAt(cfg, h, |h| - 1);
    TextOrderIsTimeOrder(now, h[|h| - 1].at);
  }

  lemma OrderBounds(h: seq<Entry>, now: Instant)
    requires InTimeOrder(h) && (h != [] ==> Micros(h[|h| - 1].at) <= Micros(now))
    ensures NoneLater(h, now)
  {
    forall i | 0 <= i < |h|
      ensures Micros(h[i].at) <= Micros(now)
    {
      assert i < |h| - 1 ==> NotLater(h, i, |h| - 1);
    }
  }

  lemma NotBackwards(cfg: Config, s: Store, h: seq<Entry>, now: Instant)
    requires Inv(cfg, s, h) && !StringLess(IsoText(now), s.lastCollectedAt)
    ensures NoneLater(h, now)
  {
    if h != [] {
      LastNotLater(cfg, s, h, now);
    }
    OrderBounds(h, now);
  }

  lemma ChainOfGrows(h: seq<Entry>, e: Entry)
    ensures ChainOf(h + [e]) == ChainOf(h) + [e.row.record] && RowsOf(h + [e]) == RowsOf(h) + [e.row]
  {
  }

  lemma SoundGrows(cfg: Config, h: seq<Entry>, e: Entry)
    requires FaithfulJson(cfg) && Sound(cfg, h)
    requires NoneLater(h, e.at)
    requires EntryHolds(cfg, h + [e], |h|)
    requires e.row.record == NextRecord(cfg.prims, GENESIS, ChainOf(h), e.row.record.canonicalJson)
    ensures Sound(cfg, h + [e])
  {
    ChainOfGrows(h, e);
    TimeOrderGrows(h, e);
    var json := e.row.record.canonicalJson;
    HeadIsHex(cfg.prims, GENESIS, ChainOf(h));
    EncodablePreimage(HeadHash(GENESIS, ChainOf(h)), json);
    ChainGrows(cfg.prims, GENESIS, ChainOf(h), json);
    forall i | 0 <= i < |h + [e]|
      ensures EntryHolds(cfg, h + [e], i)
    {
      if i < |h| {
        assert EntryHolds(cfg, h, i);
      }
    }
  }

  lemma RepresentsGrows(s: Store, h: seq<Entry>, e: Entry)
    requires Represents(s, h) && e.row.sequence == s.lastSequence + 1
    ensures Represents(s.(rows := s.rows + [e.row], lastSequence := s.lastSequence + 1, lastCollectedAt := e.row.collectedAt), h + [e])
  {
    ChainOfGrows(h, e);
    var k := |h| - |s.rows|;
    assert (RowsOf(h) + [e.row])[k..] == RowsOf(h)[k..] + [e.row];
    assert k > 0 ==> ChainOf(h + [e])[k - 1] == ChainOf(h)[k - 1];
  }

  function EntryFor(s: Store, record: LedgerRecord, now: Instant, sourceId: string, taskId: string, trace: DecisionTrace): Entry {
    Entry(Row(s.lastSequence + 1, trace.runId, IsoText(now), record), now, sourceId, taskId, trace)
  }

  /** What an admitted append checked, and the record it made. */
  lemma AdmittedEntry(cfg: Config, s: Store, now: Instant, sourceId: string, taskId: string, trace: DecisionTrace)
    requires AppendOutcome(cfg, s, Some(now), sourceId, taskId, trace).Appended?
    ensures var record := AppendOutcome(cfg, s, Some(now), sourceId, taskId, trace).record;
            && !StringLess(IsoText(now), s.lastCollectedAt)
            && EntryOk(cfg, EntryFor(s, record, now, sourceId, taskId, trace), s.lastSequence + 1)
            && record == LedgerRecord(LastHash(s), RecordHash(cfg.prims, LastHash(s), record.canonicalJson), record.canonicalJson)
  {
  }

  lemma EntryKeepsInv(cfg: Config, s: Store, h: seq<Entry>, e: Entry)
    requires FaithfulJson(cfg) && Inv(cfg, s, h) && EntryOk(cfg, e, s.lastSequence + 1)
    requires NoneLater(h, e.at)
    requires e.row.record == LedgerRecord(LastHash(s), RecordHash(cfg.prims, LastHash(s), e.row.record.canonicalJson), e.row.record.canonicalJson)
    ensures Inv(cfg, s.(rows := s.rows + [e.row], lastSequence := s.lastSequence + 1, lastCollectedAt := e.row.collectedAt), h + [e])
  {
    LastHashIsHead(s, h);
    assert EntryHolds(cfg, h + [e], |h|);
    SoundGrows(cfg, h, e);
    RepresentsGrows(s, h, e);
  }

  lemma AppendAdds(s: Store, h: seq<Entry>, outcome: AppendResult, now: Instant, sourceId: string, taskId: string, trace: DecisionTrace)
    requires outcome.Appended?
    ensures var e := EntryFor(s, outcome.record, now, sourceId, taskId, trace);
            && AfterAppend(s, outcome, IsoText(now), trace.runId)
               == s.(rows := s.rows + [e.row], lastSequence := s.lastSequence + 1, lastCollectedAt := e.row.collectedAt)
            && Recorded(h, s, outcome, Some(now), sourceId, taskId, trace) == h + [e]
  {
  }

  /** Every append, admitted or refused, keeps the invariant. */
  lemma AppendKeepsInv(cfg: Config, s: Store, h: seq<Entry>, clock: Option<Instant>, sourceId: string, taskId: string, trace: DecisionTrace)
    requires FaithfulJson(cfg) && Inv(cfg, s, h)
    ensures var outcome := AppendOutcome(cfg, s, clock, sourceId, taskId, trace);
            Inv(cfg, AfterAppend(s, outcome, if clock.Some? then IsoText(clock.value) else "", trace.runId),
                Recorded(h, s, outcome, clock, sourceId, taskId, trace))
  {
    var outcome := AppendOutcome(cfg, s, clock, sourceId, taskId, trace);
    if outcome.Appended? {
      var now := clock.value;
      AdmittedEntry(cfg, s, now, sourceId, taskId, trace);
      NotBackwards(cfg, s, h, now);
      EntryKeepsInv(cfg, s, h, EntryFor(s, outcome.record, now, sourceId, taskId, trace));
      AppendAdds(s, h, outcome, now, sourceId, taskId, trace);
    }
  }

  /** Live row `i` is entry `|h| - |s.rows| + i` of the history. */
  lemma LiveRow(s: Store, h: seq<Entry>, i: nat)
    requires Represents(s, h) && i < |s.rows|
    ensures s.rows[i] == h[|h| - |s.rows| + i].row
  {
    assert s.rows[i] == RowsOf(h)[|h| - |s.rows| + i];
  }

  lemma EntryAt(cfg: Config, h: seq<Entry>, i: nat)
    requires Sound(cfg, h) && i < |h|
    ensures h[i].row.sequence == i + 1 && h[i].row.collectedAt == IsoText(h[i].at)
  {
    assert EntryHolds(cfg, h, i);
  }

  /** Live rows carry consecutive sequence numbers. */
  lemma LiveRowNumber(cfg: Config, s: Store, h: seq<Entry>, i: nat)
    requires Inv(cfg, s, h) && i < |s.rows|
    ensures s.rows[i].sequence == |h| - |s.rows| + i + 1
  {
    LiveRow(s, h, i);
    EntryAt(cfg, h, |h| - |s.rows| + i);
  }

  /** Comparing a live row with a cutoff as text compares the instants. */
  lemma LiveRowExpires(cfg: Config, s: Store, h: seq<Entry>, cutoff: Instant, i: nat)
    requires Inv(cfg, s, h) && i < |s.rows|
    ensures AtOrBefore(s.rows[i], IsoText(cutoff)) <==> Micros(h[|h| - |s.rows| + i].at) <= Micros(cutoff)
  {
    LiveRow(s, h, i);
    EntryAt(cfg, h, |h| - |s.rows| + i);
    TextOrderIsTimeOrder(cutoff, h[|h| - |s.rows| + i].at);
  }

  /** The live rows are younger than a cutoff. */
  predicate AllAfter(h: seq<Entry>, from: int, cutoff: Instant) {
    forall j :: from <= j < |h| && 0 <= j ==> Micros(h[j].at) > Micros(cutoff)
  }

  /** Comparing the live rows with a text compares their instants with the cutoff. */
  predicate Compared(s: Store, h: seq<Entry>, cutoff: Instant, text: string)
    requires |s.rows| <= |h|
  {
    forall i :: 0 <= i < |s.rows| ==> (AtOrBefore(s.rows[i], text) <==> Micros(h[|h| - |s.rows| + i].at) <= Micros(cutoff))
  }

  lemma LiveRowsCompare(cfg: Config, s: Store, h: seq<Entry>, cutoff: Instant)
    requires Inv(cfg, s, h)
    ensures Compared(s, h, cutoff, IsoText(cutoff))
  {
    forall i | 0 <= i < |s.rows|
      ensures AtOrBefore(s.rows[i], IsoText(cutoff)) <==> Micros(h[|h| - |s.rows| + i].at) <= Micros(cutoff)
    {
      LiveRowExpires(cfg, s, h, cutoff, i);
    }
  }

  lemma NoneExpired(s: Store, h: seq<Entry>, cutoff: Instant, text: string)
    requires |s.rows| <= |h| && Compared(s, h, cutoff, text) && !AnyAtOrBefore(s.rows, text)
    ensures AllAfter(h, |h| - |s.rows|, cutoff)
  {
    forall j | |h| - |s.rows| <= j < |h|
      ensures Micros(h[j].at) > Micros(cutoff)
    {
      assert !AtOrBefore(s.rows[j - (|h| - |s.rows|)], text);
    }
  }

  lemma NothingOverdue(cfg: Config, s: Store, h: seq<Entry>, cutoff: Instant)
    requires Inv(cfg, s, h) && !AnyAtOrBefore(s.rows, IsoText(cutoff))
    ensures AllAfter(h, |h| - |s.rows|, cutoff)
  {
    LiveRowsCompare(cfg, s, h, cutoff);
    NoneExpired(s, h, cutoff, IsoText(cutoff));
  }

  /** Every live row is younger than the retention period at `now`. */
  predicate AllRetained(s: Store, h: seq<Entry>, now: Instant)
    requires |s.rows| <= |h|
  {
    forall j :: |h| - |s.rows| <= j < |h| ==> Micros(now) - Micros(h[j].at) < RETENTION_DAYS * DAY_MICROS
  }

  lemma RetainedGrows(s: Store, h: seq<Entry>, e: Entry, cutoff: Instant, s': Store)
    requires |s.rows| <= |h| && Micros(cutoff) == Micros(e.at) - RETENTION_DAYS * DAY_MICROS
    requires AllAfter(h, |h| - |s.rows|, cutoff) && |s'.rows| == |s.rows| + 1
    ensures AllRetained(s', h + [e], e.at)
  {
  }

  lemma AdmittedWhenPurged(cfg: Config, s: Store, now: Instant, sourceId: string, taskId: string, trace: DecisionTrace) returns (cutoff: Instant)
    requires AppendOutcome(cfg, s, Some(now), sourceId, taskId, trace).Appended?
    ensures Micros(cutoff) == Micros(now) - RETENTION_DAYS * DAY_MICROS && !AnyAtOrBefore(s.rows, IsoText(cutoff))
  {
    MinusDaysCounts(now, RETENTION_DAYS);
    cutoff := MinusDays(now, RETENTION_DAYS).value;
  }

  lemma AdmittedWhenRetained(cfg: Config, s: Store, h: seq<Entry>, now: Instant, sourceId: string, taskId: string, trace: DecisionTrace)
    returns (cutoff: Instant)
    requires Inv(cfg, s, h) && AppendOutcome(cfg, s, Some(now), sourceId, taskId, trace).Appended?
    ensures Micros(cutoff) == Micros(now) - RETENTION_DAYS * DAY_MICROS && AllAfter(h, |h| - |s.rows|, cutoff)
  {
    cutoff := AdmittedWhenPurged(cfg, s, now, sourceId, taskId, trace);
    NothingOverdue(cfg, s, h, cutoff);
  }

  lemma RecordedRetained(s: Store, h: seq<Entry>, outcome: AppendResult, now: Instant, sourceId: string, taskId: string, trace: DecisionTrace, cutoff: Instant)
    requires |s.rows| <= |h| && outcome.Appended?
    requires Micros(cutoff) == Micros(now) - RETENTION_DAYS * DAY_MICROS && AllAfter(h, |h| - |s.rows|, cutoff)
    ensures AllRetained(AfterAppend(s, outcome, IsoText(now), trace.runId), Recorded(h, s, outcome, Some(now), sourceId, taskId, trace), now)
  {
    RetainedGrows(s, h, EntryFor(s, outcome.record, now, sourceId, taskId, trace), cutoff,
                  AfterAppend(s, outcome, IsoText(now), trace.runId));
  }

  /** Right after a successful append no live row has reached the retention age. */
  lemma AppendLeavesNothingOverdue(cfg: Config, s: Store, h: seq<Entry>, now: Instant, sourceId: string, taskId: string, trace: DecisionTrace)
    requires Inv(cfg, s, h) && AppendOutcome(cfg, s, Some(now), sourceId, taskId, trace).Appended?
    ensures var outcome := AppendOutcome(cfg, s, Some(now), sourceId, taskId, trace);
            AllRetained(AfterAppend(s, outcome, IsoText(now), trace.runId), Recorded(h, s, outcome, Some(now), sourceId, taskId, trace), now)
  {
    var cutoff := AdmittedWhenRetained(cfg, s, h, now, sourceId, taskId, trace);
    RecordedRetained(s, h, AppendOutcome(cfg, s, Some(now), sourceId, taskId, trace), now, sourceId, taskId, trace, cutoff);
  }

  // ----- Purge

  /** When exactly the first `k` rows are expired, selecting them by time and deleting by
      sequence number remove the same rows. */
  lemma {:induction false} PrefixExpires(rows: seq<Row>, cutoff: string, k: nat)
    requires k <= |rows| && forall i :: 0 <= i < |rows| ==> (AtOrBefore(rows[i], cutoff) <==> i < k)
    ensures Expired(rows, cutoff) == rows[..k]
    decreases |rows|
  {
    if rows != [] {
      var init := rows[..|rows| - 1];
      if k == |rows| {
        PrefixExpires(init, cutoff, k - 1);
        assert rows[..k] == init[..k - 1] + [rows[k - 1]];
      } else {
        PrefixExpires(init, cutoff, k);
        assert rows[..k] == init[..k];
      }
    } else {
      assert rows[..k] == [];
    }
  }

  lemma SuffixGrows<T>(s: seq<T>, k: nat)
    requires k < |s|
    ensures s[k..] == s[..|s| - 1][k..] + [s[|s| - 1]]
  {
  }

  lemma {:induction false} DeletesPrefix(rows: seq<Row>, last: nat, k: nat)
    requires k <= |rows| && forall i :: 0 <= i < |rows| ==> (rows[i].sequence <= last <==> i < k)
    ensures DeleteThrough(rows, last) == rows[k..]
    decreases |rows|
  {
    if rows != [] {
      var init, n := rows[..|rows| - 1], |rows| - 1;
      if k == |rows| {
        DeletesPrefix(init, last, n);
        assert rows[n].sequence <= last && rows[k..] == init[n..] + [];
      } else {
        DeletesPrefix(init, last, k);
        SuffixGrows(rows, k);
      }
    } else {
      assert rows[k..] == [];
    }
  }

  /** In an ascending sequence the numbers at or before a bound come first. */
  lemma Cut(times: seq<int>, base: nat, bound: int) returns (k: nat)
    requires base <= |times| && forall i, j :: 0 <= i < j < |times| ==> times[i] <= times[j]
    ensures base + k <= |times| && forall j :: base <= j < |times| ==> (times[j] <= bound <==> j < base + k)
  {
    k := 0;
    while base + k < |times| && times[base + k] <= bound
      invariant base + k <= |times| && forall j :: base <= j < base + k ==> times[j] <= bound
    {
      k := k + 1;
    }
  }

  function Times(h: seq<Entry>): (r: seq<int>)
    ensures |r| == |h| && forall i :: 0 <= i < |h| ==> r[i] == Micros(h[i].at)
  {
    seq(|h|, i requires 0 <= i < |h| => Micros(h[i].at))
  }

  lemma TimeCut(h: seq<Entry>, base: nat, bound: int) returns (k: nat)
    requires base <= |h| && InTimeOrder(h)
    ensures base + k <= |h| && forall j :: base <= j < |h| ==> (Micros(h[j].at) <= bound <==> j < base + k)
  {
    var times := Times(h);
    forall i, j | 0 <= i < j < |times|
      ensures times[i] <= times[j]
    {
      assert NotLater(h, i, j);
    }
    k := Cut(times, base, bound);
  }

  /** The state after dropping the `k` oldest live rows. */
  function Dropped(s: Store, k: nat, now: string): Store
    requires k <= |s.rows|
  {
    if k == 0 then s
    else
      s.(rows := s.rows[k..], checkpoint := s.rows[k - 1].record.recordHash,
         audit := s.audit + [AuditEntry(|s.audit| + 1, now, k, s.rows[k - 1].record.recordHash)])
  }

  /** Rows numbered in a row of which exactly the first `k` are expired. */
  predicate ExpiredFirst(rows: seq<Row>, base: nat, cutoff: string, k: nat) {
    forall i :: 0 <= i < |rows| ==> (AtOrBefore(rows[i], cutoff) <==> i < k) && rows[i].sequence == base + i + 1
  }

  lemma LiveRowsExpire(s: Store, h: seq<Entry>, cutoff: Instant, text: string, k: nat)
    requires |s.rows| <= |h| && k <= |s.rows| && Compared(s, h, cutoff, text)
    requires forall m :: 0 <= m < |s.rows| ==> s.rows[m].sequence == |h| - |s.rows| + m + 1
    requires forall j :: |h| - |s.rows| <= j < |h| ==> (Micros(h[j].at) <= Micros(cutoff) <==> j < |h| - |s.rows| + k)
    ensures ExpiredFirst(s.rows, |h| - |s.rows|, text, k)
  {
  }

  lemma PurgeDrops(s: Store, base: nat, now: string, text: string, k: nat)
    requires k <= |s.rows| && ExpiredFirst(s.rows, base, text, k)
    ensures AfterPurge(s, now, text) == Dropped(s, k, now) && |Expired(s.rows, text)| == k
  {
    PrefixExpires(s.rows, text, k);
    if k > 0 {
      DeletesPrefix(s.rows, s.rows[k - 1].sequence, k);
    }
  }

  lemma DropTwice<T>(t: seq<T>, base: nat, k: nat)
    requires base + k <= |t|
    ensures t[base..][k..] == t[base + k..]
  {
  }

  lemma PurgedCountGrows(audit: seq<AuditEntry>, e: AuditEntry)
    ensures PurgedCount(audit + [e]) == PurgedCount(audit) + e.recordCount
  {
    assert (audit + [e])[..|audit|] == audit;
  }

  lemma DroppedRepresents(s: Store, h: seq<Entry>, now: string, k: nat)
    requires Represents(s, h) && k <= |s.rows|
    ensures Represents(Dropped(s, k, now), h)
  {
    if k > 0 {
      var base, hash := |h| - |s.rows|, s.rows[k - 1].record.recordHash;
      DropTwice(RowsOf(h), base, k);
      PurgedCountGrows(s.audit, AuditEntry(|s.audit| + 1, now, k, hash));
      assert s.rows[k - 1] == RowsOf(h)[base + k - 1];
      assert hash == HashBefore(GENESIS, ChainOf(h), base + k);
    }
  }

  lemma DroppedKeepsInv(cfg: Config, s: Store, h: seq<Entry>, now: string, k: nat)
    requires Inv(cfg, s, h) && k <= |s.rows|
    ensures Inv(cfg, Dropped(s, k, now), h)
  {
    DroppedRepresents(s, h, now, k);
  }

  /** Rows numbered in a row: dropping the first `k` leaves exactly the others. */
  lemma NumberedSuffix(rows: seq<Row>, base: nat, k: nat, i: nat)
    requires k <= |rows| && i < |rows| && forall m :: 0 <= m < |rows| ==> rows[m].sequence == base + m + 1
    ensures rows[i] in rows[k..] <==> k <= i
  {
    if rows[i] in rows[k..] {
      var m :| 0 <= m < |rows[k..]| && rows[k..][m] == rows[i];
      assert rows[k..][m] == rows[k + m];
    }
    if k <= i {
      assert rows[k..][i - k] == rows[i];
    }
  }

  lemma LiveRowsNumbered(cfg: Config, s: Store, h: seq<Entry>)
    requires Inv(cfg, s, h)
    ensures forall m :: 0 <= m < |s.rows| ==> s.rows[m].sequence == |h| - |s.rows| + m + 1
  {
    forall m | 0 <= m < |s.rows|
      ensures s.rows[m].sequence == |h| - |s.rows| + m + 1
    {
      LiveRowNumber(cfg, s, h, m);
    }
  }

  lemma DroppedLeaves(cfg: Config, s: Store, h: seq<Entry>, now: string, k: nat, j: nat)
    requires Inv(cfg, s, h) && k <= |s.rows| && |h| - |s.rows| <= j < |h|
    ensures h[j].row in Dropped(s, k, now).rows <==> |h| - |s.rows| + k <= j
  {
    var base := |h| - |s.rows|;
    LiveRowsNumbered(cfg, s, h);
    LiveRow(s, h, j - base);
    NumberedSuffix(s.rows, base, k, j - base);
  }

  /** Purge removes exactly the rows whose instant is at or before the cutoff, keeps the head,
      the history and the invariant, and audits how many rows it removed. */
  lemma PurgeIsExact(cfg: Config, s: Store, h: seq<Entry>, now: string, cutoff: Instant)
    requires Inv(cfg, s, h)
    ensures var s' := AfterPurge(s, now, IsoText(cutoff));
            && Inv(cfg, s', h)
            && LastHash(s') == LastHash(s) && s'.lastSequence == s.lastSequence
            && |s.rows| == |Expired(s.rows, IsoText(cutoff))| + |s'.rows|
            && (forall j :: |h| - |s.rows| <= j < |h| ==> (h[j].row in s'.rows <==> Micros(h[j].at) > Micros(cutoff)))
  {
    var k := TimeCut(h, |h| - |s.rows|, Micros(cutoff));
    LiveRowsCompare(cfg, s, h, cutoff);
    LiveRowsNumbered(cfg, s, h);
    LiveRowsExpire(s, h, cutoff, IsoText(cutoff), k);
    PurgeDrops(s, |h| - |s.rows|, now, IsoText(cutoff), k);
    DroppedKeepsInv(cfg, s, h, now, k);
    LastHashIsHead(s, h);
    LastHashIsHead(Dropped(s, k, now), h);
    forall j | |h| - |s.rows| <= j < |h|
      ensures h[j].row in Dropped(s, k, now).rows <==> Micros(h[j].at) > Micros(cutoff)
    {
      DroppedLeaves(cfg, s, h, now, k, j);
    }
  }

  // ----- Verification

  lemma EntryVerifies(cfg: Config, previous: Text, e: Entry, sequence: nat)
    requires FaithfulJson(cfg) && EntryOk(cfg, e, sequence) && Follows(cfg.prims, previous, e.row.record)
    ensures RowVerifies(cfg, previous, e.row)
  {
  }

  lemma SameHashBefore(s: Store, h: seq<Entry>, i: nat)
    requires Represents(s, h) && i < |s.rows|
    ensures HashBefore(s.checkpoint, Records(s.rows), i) == HashBefore(GENESIS, ChainOf(h), |h| - |s.rows| + i)
  {
    if i > 0 {
      assert s.rows[i - 1] == RowsOf(h)[|h| - |s.rows| + i - 1];
    }
  }

  lemma LiveRowVerifies(cfg: Config, s: Store, h: seq<Entry>, i: nat)
    requires FaithfulJson(cfg) && Inv(cfg, s, h) && i < |s.rows|
    ensures RowHolds(cfg, s.checkpoint, s.rows, i)
  {
    var n := |h| - |s.rows| + i;
    var previous := HashBefore(GENESIS, ChainOf(h), n);
    assert RowVerifies(cfg, previous, h[n].row) by {
      assert EntryHolds(cfg, h, n) && LinkHolds(cfg.prims, GENESIS, ChainOf(h), n);
      EntryVerifies(cfg, previous, h[n], n + 1);
    }
    SameHashBefore(s, h, i);
    LiveRow(s, h, i);
  }

  /** In every state of the invariant the chain verifies, and the head is that of the whole history. */
  lemma InvVerifies(cfg: Config, s: Store, h: seq<Entry>)
    requires FaithfulJson(cfg) && Inv(cfg, s, h)
    ensures Verifies(cfg, s) && LastHash(s) == HeadHash(GENESIS, ChainOf(h)) && s.lastSequence == |h|
  {
    LastHashIsHead(s, h);
    if s.rows != [] {
      LiveRow(s, h, |s.rows| - 1);
      LiveRowNumber(cfg, s, h, |s.rows| - 1);
    }
    forall i | 0 <= i < |s.rows|
      ensures RowHolds(cfg, s.checkpoint, s.rows, i)
    {
      LiveRowVerifies(cfg, s, h, i);
    }
  }

  // ----- Whole runs

  datatype Op =
    | Append(clock: Option<Instant>, sourceId: string, taskId: string, trace: DecisionTrace)
    | Purge(at: Instant)

  datatype World = World(store: Store, history: seq<Entry>)

  /** One call of the store; a purge the clock cannot serve changes nothing. */
  function Step(cfg: Config, w: World, op: Op): World {
    match op
    case Append(clock, sourceId, taskId, trace) =>
      var outcome := AppendOutcome(cfg, w.store, clock, sourceId, taskId, trace);
      World(AfterAppend(w.store, outcome, if clock.Some? then IsoText(clock.value) else "", trace.runId),
            Recorded(w.history, w.store, outcome, clock, sourceId, taskId, trace))
    case Purge(at) =>
      MinusDaysCounts(at, RETENTION_DAYS);
      var cutoff := MinusDays(at, RETENTION_DAYS);
      if cutoff.None? then w
      else World(AfterPurge(w.store, IsoText(at), IsoText(cutoff.value)), w.history)
  }

  function Run(cfg: Config, ops: seq<Op>): World {
    if ops == [] then World(EMPTY, []) else Step(cfg, Run(cfg, ops[..|ops| - 1]), ops[|ops| - 1])
  }

  lemma StepKeepsInv(cfg: Config, w: World, op: Op)
    requires FaithfulJson(cfg) && Inv(cfg, w.store, w.history)
    ensures Inv(cfg, Step(cfg, w, op).store, Step(cfg, w, op).history)
    ensures w.history <= Step(cfg, w, op).history
  {
    match op
    case Append(clock, sourceId, taskId, trace) =>
      AppendKeepsInv(cfg, w.store, w.history, clock, sourceId, taskId, trace);
    case Purge(at) =>
      MinusDaysCounts(at, RETENTION_DAYS);
      var cutoff := MinusDays(at, RETENTION_DAYS);
      if cutoff.Some? {
        PurgeIsExact(cfg, w.store, w.history, IsoText(at), cutoff.value);
      }
  }

  lemma {:induction false} RunKeepsInv(cfg: Config, ops: seq<Op>)
    requires FaithfulJson(cfg)
    ensures Inv(cfg, Run(cfg, ops).store, Run(cfg, ops).history)
  {
    if ops != [] {
      RunKeepsInv(cfg, ops[..|ops| - 1]);
      StepKeepsInv(cfg, Run(cfg, ops[..|ops| - 1]), ops[|ops| - 1]);
    } else {
      EmptyInv(cfg, EMPTY, []);
    }
  }

  lemma EmptyInv(cfg: Config, s: Store, h: seq<Entry>)
    requires s == EMPTY && h == []
    ensures Inv(cfg, s, h)
  {
    EmptySound(cfg, h);
    EmptyRepresents(s, h);
  }

  lemma EmptySound(cfg: Config, h: seq<Entry>)
    requires h == []
    ensures Sound(cfg, h)
  {
  }

  lemma EmptyRepresents(s: Store, h: seq<Entry>)
    requires s.rows == [] && s.audit == [] && s.lastSequence == 0 && s.lastCollectedAt == "" && s.checkpoint == GENESIS && h == []
    ensures Represents(s, h)
  {
  }

  /** Every run of appends, refused appends and purges leaves a store that verifies, whose live
      rows and audited purges account for every admitted trace, and whose history is approved,
      redacted, in time order and one unbroken chain from genesis. */
  lemma EveryRunIsSound(cfg: Config, ops: seq<Op>)
    requires FaithfulJson(cfg)
    ensures var w := Run(cfg, ops);
            && Inv(cfg, w.store, w.history)
            && Verifies(cfg, w.store)
            && PurgedCount(w.store.audit) + |w.store.rows| == |w.history|
  {
    RunKeepsInv(cfg, ops);
    InvVerifies(cfg, Run(cfg, ops).store, Run(cfg, ops).history);
  }

  lemma {:induction false} HistoryOnlyGrows(cfg: Config, ops: seq<Op>, n: nat)
    requires FaithfulJson(cfg) && n <= |ops|
    ensures Run(cfg, ops[..n]).history <= Run(cfg, ops).history
    decreases |ops|
  {
    if n == |ops| {
      assert ops[..n] == ops;
    } else {
      var init := ops[..|ops| - 1];
      HistoryOnlyGrows(cfg, init, n);
      assert init[..n] == ops[..n];
      RunKeepsInv(cfg, init);
      StepKeepsInv(cfg, Run(cfg, init), ops[|ops| - 1]);
    }
  }

  /** A head captured at any point of a run stays on the chain for the rest of the run, purges
      included: it is the hash of the record with that sequence number. */
  lemma CapturedHeadsStay(cfg: Config, ops: seq<Op>, n: nat)
    requires FaithfulJson(cfg) && n <= |ops|
    ensures var early, late := Run(cfg, ops[..n]), Run(cfg, ops);
            && early.store.lastSequence <= |late.history|
            && HashBefore(GENESIS, ChainOf(late.history), early.store.lastSequence) == LastHash(early.store)
  {
    HistoryOnlyGrows(cfg, ops, n);
    RunKeepsInv(cfg, ops[..n]);
    var early, late := Run(cfg, ops[..n]), Run(cfg, ops);
    LastHashIsHead(early.store, early.history);
    var m := |early.history|;
    assert m > 0 ==> ChainOf(late.history)[m - 1] == ChainOf(early.history)[m - 1];
  }
}
