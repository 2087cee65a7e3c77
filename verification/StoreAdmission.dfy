/** When the governed store admits a trace and what it then holds, over the history of admitted
    traces; what its verification accepts; and what a purge leaves in the audit. */
module StoreAdmission {
  import opened Schema
  import opened Ranking
  import opened Unicode
  import opened IsoTime
  import opened Trace
  import opened TraceLedger
  import opened GovernedStore
  import opened StoreLaws

  // ----- Admission

  /** Entry `j` of the history is still held. */
  predicate Live(s: Store, h: seq<Entry>, j: int) { 0 <= |h| - |s.rows| <= j < |h| }

  /** Thirty days in microseconds. */
  const THIRTY_DAYS: int := 2_592_000_000_000

  /** The source and task are granted, the trace is redacted, the clock can be moved back thirty days
      and does not precede the last admitted trace, no live trace has reached the retention age, and
      no live trace has the same run id. */
  ghost predicate Admissible(cfg: Config, s: Store, h: seq<Entry>, clock: Option<Instant>, sourceId: string, taskId: string, trace: DecisionTrace) {
    && sourceId in cfg.grants && taskId in cfg.grants[sourceId] && PassesRedaction(trace)
    && clock.Some? && Day(clock.value) >= 30
    && (h != [] ==> Micros(h[|h| - 1].at) <= Micros(clock.value))
    && (forall j :: Live(s, h, j) ==> Micros(clock.value) - Micros(h[j].at) < THIRTY_DAYS)
    && (forall j :: Live(s, h, j) ==> h[j].trace.runId != trace.runId)
  }

  lemma LastCollected(cfg: Config, s: Store, h: seq<Entry>)
    requires Inv(cfg, s, h)
    ensures s.lastCollectedAt == if h == [] then "" else IsoText(h[|h| - 1].at)
  {
    if h != [] {
      EntryAt(cfg, h, |h| - 1);
    }
  }

  lemma ClockOrder(cfg: Config, s: Store, h: seq<Entry>, now: Instant)
    requires Inv(cfg, s, h)
    ensures StringLess(IsoText(now), s.lastCollectedAt) <==> h != [] && Micros(now) < Micros(h[|h| - 1].at)
  {
    LastCollected(cfg, s, h);
    if h != [] {
      TextOrderIsTimeOrder(now, h[|h| - 1].at);
    }
  }

  /** Some live entry is at or before the cutoff. */
  predicate SomeOverdue(s: Store, h: seq<Entry>, cutoff: Instant) {
    exists j :: 0 <= j < |h| && Live(s, h, j) && Micros(h[j].at) <= Micros(cutoff)
  }

  lemma OverdueFound(s: Store, h: seq<Entry>, cutoff: Instant, text: string, i: nat)
    requires |s.rows| <= |h| && Compared(s, h, cutoff, text) && i < |s.rows| && AtOrBefore(s.rows[i], text)
    ensures SomeOverdue(s, h, cutoff)
  {
    assert Live(s, h, |h| - |s.rows| + i);
  }

  lemma OverdueListed(s: Store, h: seq<Entry>, cutoff: Instant, text: string, j: nat)
    requires |s.rows| <= |h| && Compared(s, h, cutoff, text) && Live(s, h, j) && Micros(h[j].at) <= Micros(cutoff)
    ensures AnyAtOrBefore(s.rows, text)
  {
    var i := j - (|h| - |s.rows|);
    assert |h| - |s.rows| + i == j;
    assert AtOrBefore(s.rows[i], text);
  }

  lemma OverdueOrder(s: Store, h: seq<Entry>, cutoff: Instant, text: string)
    requires |s.rows| <= |h| && Compared(s, h, cutoff, text)
    ensures AnyAtOrBefore(s.rows, text) <==> SomeOverdue(s, h, cutoff)
  {
    if i :| 0 <= i < |s.rows| && AtOrBefore(s.rows[i], text) {
      OverdueFound(s, h, cutoff, text, i);
    }
    if j :| 0 <= j < |h| && Live(s, h, j) && Micros(h[j].at) <= Micros(cutoff) {
      OverdueListed(s, h, cutoff, text, j);
    }
  }

  lemma LiveRuns(cfg: Config, s: Store, h: seq<Entry>, runId: string)
    requires Inv(cfg, s, h)
    ensures HasRun(s.rows, runId) <==> exists j :: Live(s, h, j) && h[j].trace.runId == runId
  {
    var base := |h| - |s.rows|;
    forall i | 0 <= i < |s.rows|
      ensures s.rows[i].runId == h[base + i].trace.runId
    {
      LiveRow(s, h, i);
      assert EntryHolds(cfg, h, base + i);
    }
    if i :| 0 <= i < |s.rows| && s.rows[i].runId == runId {
      assert Live(s, h, base + i);
    }
    if j :| Live(s, h, j) && h[j].trace.runId == runId {
      assert s.rows[j - base].runId == runId;
    }
  }

  lemma InsertAdmits(cfg: Config, s: Store, collectedAt: string, cutoff: string, sourceId: string, taskId: string, trace: DecisionTrace)
    ensures InsertOutcome(cfg, s, collectedAt, cutoff, sourceId, taskId, trace).Appended?
       <==> !StringLess(collectedAt, s.lastCollectedAt) && !AnyAtOrBefore(s.rows, cutoff) && !HasRun(s.rows, trace.runId)
  {
  }

  lemma CutoffAge(now: Instant, cutoff: Instant, at: Instant)
    requires Micros(cutoff) == Micros(now) - THIRTY_DAYS
    ensures Micros(at) <= Micros(cutoff) <==> !(Micros(now) - Micros(at) < THIRTY_DAYS)
  {
  }

  lemma NoneOverdue(s: Store, h: seq<Entry>, now: Instant, cutoff: Instant)
    requires Micros(cutoff) == Micros(now) - THIRTY_DAYS
    ensures SomeOverdue(s, h, cutoff)
       <==> !(forall j :: Live(s, h, j) ==> Micros(now) - Micros(h[j].at) < THIRTY_DAYS)
  {
    forall j | Live(s, h, j)
      ensures Micros(h[j].at) <= Micros(cutoff) <==> !(Micros(now) - Micros(h[j].at) < THIRTY_DAYS)
    {
      CutoffAge(now, cutoff, h[j].at);
    }
  }

  lemma GrantMeans(cfg: Config, sourceId: string, taskId: string)
    ensures Approved(cfg, sourceId, taskId) <==> sourceId in cfg.grants && taskId in cfg.grants[sourceId]
  {
  }

  lemma AdmitsWithin(cfg: Config, s: Store, h: seq<Entry>, now: Instant, cutoff: Instant, sourceId: string, taskId: string, trace: DecisionTrace)
    requires Inv(cfg, s, h) && Micros(cutoff) == Micros(now) - THIRTY_DAYS && Day(now) >= 30
    requires Approved(cfg, sourceId, taskId) && PassesRedaction(trace)
    ensures InsertOutcome(cfg, s, IsoText(now), IsoText(cutoff), sourceId, taskId, trace).Appended?
       <==> Admissible(cfg, s, h, Some(now), sourceId, taskId, trace)
  {
    GrantMeans(cfg, sourceId, taskId);
    InsertAdmits(cfg, s, IsoText(now), IsoText(cutoff), sourceId, taskId, trace);
    ClockOrder(cfg, s, h, now);
    LiveRowsCompare(cfg, s, h, cutoff);
    OverdueOrder(s, h, cutoff, IsoText(cutoff));
    NoneOverdue(s, h, now, cutoff);
    LiveRuns(cfg, s, h, trace.runId);
  }

  lemma OutcomeIsInsert(cfg: Config, s: Store, now: Instant, sourceId: string, taskId: string, trace: DecisionTrace)
    returns (cutoff: Instant)
    requires Approved(cfg, sourceId, taskId) && PassesRedaction(trace) && Day(now) >= 30
    ensures Micros(cutoff) == Micros(now) - THIRTY_DAYS
    ensures AppendOutcome(cfg, s, Some(now), sourceId, taskId, trace) == InsertOutcome(cfg, s, IsoText(now), IsoText(cutoff), sourceId, taskId, trace)
  {
    MinusDaysCounts(now, RETENTION_DAYS);
    cutoff := MinusDays(now, RETENTION_DAYS).value;
  }

  lemma RefusedEarly(cfg: Config, s: Store, clock: Option<Instant>, sourceId: string, taskId: string, trace: DecisionTrace)
    requires !Approved(cfg, sourceId, taskId) || !PassesRedaction(trace) || clock.None? || Day(clock.value) < 30
    ensures AppendOutcome(cfg, s, clock, sourceId, taskId, trace).Refused?
  {
    if clock.Some? {
      MinusDaysCounts(clock.value, RETENTION_DAYS);
    }
  }

  /** In every reachable state a trace is admitted exactly when it is admissible. */
  lemma AdmittedExactlyWhen(cfg: Config, s: Store, h: seq<Entry>, clock: Option<Instant>, sourceId: string, taskId: string, trace: DecisionTrace)
    requires Inv(cfg, s, h)
    ensures AppendOutcome(cfg, s, clock, sourceId, taskId, trace).Appended? <==> Admissible(cfg, s, h, clock, sourceId, taskId, trace)
  {
    if !Approved(cfg, sourceId, taskId) || !PassesRedaction(trace) || clock.None? || Day(clock.value) < 30 {
      RefusedEarly(cfg, s, clock, sourceId, taskId, trace);
    } else {
      var cutoff := OutcomeIsInsert(cfg, s, clock.value, sourceId, taskId, trace);
      AdmitsWithin(cfg, s, h, clock.value, cutoff, sourceId, taskId, trace);
    }
  }

  // ----- Run ids

  /** No two live rows share a run id. */
  predicate DistinctRuns(rows: seq<Row>) {
    forall i, j :: 0 <= i < j < |rows| ==> rows[i].runId != rows[j].runId
  }

  lemma AppendKeepsDistinct(cfg: Config, s: Store, clock: Option<Instant>, sourceId: string, taskId: string, trace: DecisionTrace, collectedAt: string)
    requires DistinctRuns(s.rows)
    ensures DistinctRuns(AfterAppend(s, AppendOutcome(cfg, s, clock, sourceId, taskId, trace), collectedAt, trace.runId).rows)
  {
    var outcome := AppendOutcome(cfg, s, clock, sourceId, taskId, trace);
    if outcome.Appended? {
      NoSuchRun(cfg, s, clock, sourceId, taskId, trace);
      assert forall i :: 0 <= i < |s.rows| ==> s.rows[i].runId != trace.runId;
    }
  }

  lemma NoSuchRun(cfg: Config, s: Store, clock: Option<Instant>, sourceId: string, taskId: string, trace: DecisionTrace)
    requires AppendOutcome(cfg, s, clock, sourceId, taskId, trace).Appended?
    ensures !HasRun(s.rows, trace.runId)
  {
  }

  lemma PurgeKeepsDistinct(cfg: Config, s: Store, h: seq<Entry>, now: string, cutoff: Instant)
    requires Inv(cfg, s, h) && DistinctRuns(s.rows)
    ensures DistinctRuns(AfterPurge(s, now, IsoText(cutoff)).rows)
  {
    var k := PurgeIsDrop(cfg, s, h, now, cutoff);
    DistinctSuffix(s.rows, k);
  }

  lemma DistinctSuffix(rows: seq<Row>, k: nat)
    requires DistinctRuns(rows) && k <= |rows|
    ensures DistinctRuns(rows[k..])
  {
  }

  lemma PurgeIsDrop(cfg: Config, s: Store, h: seq<Entry>, now: string, cutoff: Instant) returns (k: nat)
    requires Inv(cfg, s, h)
    ensures k <= |s.rows| && AfterPurge(s, now, IsoText(cutoff)) == Dropped(s, k, now) && k == |Expired(s.rows, IsoText(cutoff))|
  {
    k := TimeCut(h, |h| - |s.rows|, Micros(cutoff));
    LiveRowsCompare(cfg, s, h, cutoff);
    LiveRowsNumbered(cfg, s, h);
    LiveRowsExpire(s, h, cutoff, IsoText(cutoff), k);
    PurgeDrops(s, |h| - |s.rows|, now, IsoText(cutoff), k);
  }

  lemma StepKeepsDistinct(cfg: Config, w: World, op: Op)
    requires Inv(cfg, w.store, w.history) && DistinctRuns(w.store.rows)
    ensures DistinctRuns(Step(cfg, w, op).store.rows)
  {
    match op
    case Append(clock, sourceId, taskId, trace) =>
      AppendKeepsDistinct(cfg, w.store, clock, sourceId, taskId, trace, if clock.Some? then IsoText(clock.value) else "");
    case Purge(at) =>
      MinusDaysCounts(at, RETENTION_DAYS);
      var cutoff := MinusDays(at, RETENTION_DAYS);
      if cutoff.Some? {
        PurgeKeepsDistinct(cfg, w.store, w.history, IsoText(at), cutoff.value);
      }
  }

  /** In every run no two live rows share a run id. */
  lemma {:induction false} EveryRunHasDistinctRuns(cfg: Config, ops: seq<Op>)
    requires FaithfulJson(cfg)
    ensures DistinctRuns(Run(cfg, ops).store.rows)
  {
    if ops != [] {
      EveryRunHasDistinctRuns(cfg, ops[..|ops| - 1]);
      RunKeepsInv(cfg, ops[..|ops| - 1]);
      StepKeepsDistinct(cfg, Run(cfg, ops[..|ops| - 1]), ops[|ops| - 1]);
    }
  }

  /** In every run an append is admitted exactly when the history, the grants, the schema and the
      clock admit it. */
  lemma EveryAdmissionIsJustified(cfg: Config, ops: seq<Op>, clock: Option<Instant>, sourceId: string, taskId: string, trace: DecisionTrace)
    requires FaithfulJson(cfg)
    ensures var w := Run(cfg, ops);
            AppendOutcome(cfg, w.store, clock, sourceId, taskId, trace).Appended? <==> Admissible(cfg, w.store, w.history, clock, sourceId, taskId, trace)
  {
    RunKeepsInv(cfg, ops);
    AdmittedExactlyWhen(cfg, Run(cfg, ops).store, Run(cfg, ops).history, clock, sourceId, taskId, trace);
  }

  // ----- What an admitted trace may hold

  /** Every text of a trace: identifiers, keys and words. */
  ghost predicate TextOf(t: DecisionTrace, x: string) {
    || x == t.runId || x == t.stateHash || x == t.accessLevel || x == t.modelProvider || x == t.authorityResult
    || x in t.candidateIds || x in t.artifactRefs || t.selectedActionId == Some(x)
    || x in t.probabilities || x in t.utilityQuantiles || x in t.systemCost || x in t.taskOutcome
    || (exists key :: key in t.taskOutcome && t.taskOutcome[key] == Word(x))
  }

  /** Every number of a trace. */
  ghost predicate NumberOf(t: DecisionTrace, n: Number) {
    || (exists key :: key in t.probabilities && n in t.probabilities[key])
    || (exists key :: key in t.utilityQuantiles && t.utilityQuantiles[key] == n)
    || (exists key :: key in t.systemCost && t.systemCost[key] == n)
    || (exists key :: key in t.taskOutcome && t.taskOutcome[key] == Amount(n))
  }

  /** A letter or digit of ASCII, or one of four marks; so no space, quote, bracket or slash. */
  predicate SafeChar(c: char) {
    || c == '_' || c == '.' || c == ':' || c == '-'
    || (c <= '9' && '0' <= c) || (c <= 'Z' && 'A' <= c) || (c <= 'z' && 'a' <= c)
  }

  predicate SafeText(x: string) { 1 <= |x| <= 128 && forall i :: 0 <= i < |x| ==> SafeChar(x[i]) }

  ghost predicate TextsSafe(t: DecisionTrace) { forall x: string :: TextOf(t, x) ==> SafeText(x) }

  ghost predicate NumbersFinite(t: DecisionTrace) { forall n: Number :: NumberOf(t, n) ==> n.Finite? }

  /** No artifact references, a state hash of 64 lower-case hexadecimal digits, nonempty lists of
      probabilities between zero and one, and no negative cost. */
  predicate InRange(t: DecisionTrace) {
    && t.artifactRefs == [] && |t.stateHash| == 64
    && (forall i :: 0 <= i < |t.stateHash| ==> t.stateHash[i] in "0123456789abcdef")
    && (forall key :: key in t.probabilities ==> t.probabilities[key] != [])
    && (forall key, p :: key in t.probabilities && p in t.probabilities[key] && p.Finite? ==> 0.0 <= p.value <= 1.0)
    && (forall key :: key in t.systemCost && t.systemCost[key].Finite? ==> t.systemCost[key].value >= 0.0)
  }

  lemma TokenMeans(x: string)
    ensures Token(x) <==> SafeText(x)
  {
  }

  lemma HexMeans(x: string)
    ensures HexHash(x) <==> |x| == 64 && forall i :: 0 <= i < |x| ==> x[i] in "0123456789abcdef"
    ensures HexHash(x) ==> SafeText(x)
  {
  }

  lemma PassingIsSafe(t: DecisionTrace)
    requires PassesRedaction(t)
    ensures TextsSafe(t)
  {
    forall x: string | TextOf(t, x)
      ensures SafeText(x)
    {
      assert Token(x) || x == t.stateHash;
      TokenMeans(x);
      HexMeans(x);
    }
  }

  lemma SafeTokens(t: DecisionTrace)
    requires TextsSafe(t)
    ensures forall x: string :: TextOf(t, x) ==> Token(x)
  {
    forall x: string | TextOf(t, x)
      ensures Token(x)
    {
      TokenMeans(x);
    }
  }

  lemma SafeTraceNames(t: DecisionTrace)
    requires TextsSafe(t)
    ensures Token(t.runId) && Token(t.accessLevel) && Token(t.modelProvider) && Token(t.authorityResult)
    ensures forall i :: 0 <= i < |t.candidateIds| ==> Token(t.candidateIds[i])
    ensures t.selectedActionId.Some? ==> Token(t.selectedActionId.value)
  {
    SafeTokens(t);
    assert TextOf(t, t.runId) && TextOf(t, t.accessLevel) && TextOf(t, t.modelProvider) && TextOf(t, t.authorityResult);
    assert forall i :: 0 <= i < |t.candidateIds| ==> TextOf(t, t.candidateIds[i]);
    assert t.selectedActionId.Some? ==> TextOf(t, t.selectedActionId.value);
  }

  lemma SafeTraceKeys(t: DecisionTrace, key: string)
    requires TextsSafe(t)
    ensures key in t.probabilities || key in t.utilityQuantiles || key in t.systemCost || key in t.taskOutcome ==> Token(key)
    ensures key in t.taskOutcome && t.taskOutcome[key].Word? ==> Token(t.taskOutcome[key].text)
  {
    SafeTokens(t);
    if key in t.probabilities || key in t.utilityQuantiles || key in t.systemCost || key in t.taskOutcome {
      assert TextOf(t, key);
    }
    if key in t.taskOutcome && t.taskOutcome[key].Word? {
      assert TextOf(t, t.taskOutcome[key].text);
    }
  }

  lemma FiniteNumbers(t: DecisionTrace, key: string)
    requires NumbersFinite(t)
    ensures key in t.probabilities ==> forall i :: 0 <= i < |t.probabilities[key]| ==> t.probabilities[key][i].Finite?
    ensures key in t.utilityQuantiles ==> t.utilityQuantiles[key].Finite?
    ensures key in t.systemCost ==> t.systemCost[key].Finite?
    ensures key in t.taskOutcome && t.taskOutcome[key].Amount? ==> t.taskOutcome[key].value.Finite?
  {
    assert key in t.probabilities ==> forall i :: 0 <= i < |t.probabilities[key]| ==> NumberOf(t, t.probabilities[key][i]);
    assert key in t.utilityQuantiles ==> NumberOf(t, t.utilityQuantiles[key]);
    assert key in t.systemCost ==> NumberOf(t, t.systemCost[key]);
    assert key in t.taskOutcome && t.taskOutcome[key].Amount? ==> NumberOf(t, t.taskOutcome[key].value);
  }

  /** A trace passes redaction exactly when it holds no free text and no number that is not finite:
      every text is short and drawn from a fixed alphabet, and hash, probabilities, costs and artifact
      references are in range. */
  lemma RedactedExactlyWhen(t: DecisionTrace)
    ensures PassesRedaction(t) <==> TextsSafe(t) && NumbersFinite(t) && InRange(t)
  {
    HexMeans(t.stateHash);
    if PassesRedaction(t) {
      PassingIsSafe(t);
    }
    if TextsSafe(t) && NumbersFinite(t) && InRange(t) {
      SafeTraceNames(t);
      forall key: string
        ensures key in t.probabilities ==> Token(key) && forall i :: 0 <= i < |t.probabilities[key]| ==> Probability(t.probabilities[key][i])
        ensures key in t.utilityQuantiles ==> Token(key) && t.utilityQuantiles[key].Finite?
        ensures key in t.systemCost ==> Token(key) && t.systemCost[key].Finite? && t.systemCost[key].value >= 0.0
        ensures key in t.taskOutcome ==> Token(key) && OutcomeAllowed(t.taskOutcome[key])
      {
        SafeTraceKeys(t, key);
        FiniteNumbers(t, key);
      }
    }
  }

  // ----- Verification and audit

  /** Row `i` continues from the row before it, or from the checkpoint, hashes to its digest, is
      canonical and agrees with its columns. */
  predicate RowAgrees(cfg: Config, s: Store, i: nat)
    requires i < |s.rows|
  {
    var r, previous := s.rows[i].record, if i == 0 then s.checkpoint else s.rows[i - 1].record.recordHash;
    && r.previousHash == previous && r.recordHash == cfg.prims.sha256(previous + [10] + r.canonicalJson)
    && cfg.prims.recode(r.canonicalJson).Some? && cfg.prims.recode(r.canonicalJson).value == r.canonicalJson
    && cfg.header(r.canonicalJson).Some?
    && cfg.header(r.canonicalJson).value.runId == s.rows[i].runId && cfg.header(r.canonicalJson).value.collectedAt == s.rows[i].collectedAt
  }

  lemma RowMeans(cfg: Config, s: Store, i: nat)
    requires i < |s.rows|
    ensures RowHolds(cfg, s.checkpoint, s.rows, i) <==> RowAgrees(cfg, s, i)
  {
  }

  /** The store verifies exactly when every live row agrees with the row before it and with its
      columns, and the last row with the metadata. */
  lemma VerifiesMeans(cfg: Config, s: Store)
    ensures Verifies(cfg, s) <==>
              && (forall i :: 0 <= i < |s.rows| ==> RowAgrees(cfg, s, i))
              && (s.rows != [] ==> s.rows[|s.rows| - 1].sequence == s.lastSequence && s.rows[|s.rows| - 1].collectedAt == s.lastCollectedAt)
  {
    forall i | 0 <= i < |s.rows|
      ensures RowHolds(cfg, s.checkpoint, s.rows, i) <==> RowAgrees(cfg, s, i)
    {
      RowMeans(cfg, s, i);
    }
  }

  /** A purge that removes something adds one audit entry with the next number, the time, the count
      and the new checkpoint, which is the hash of the newest removed row; any other adds none. */
  lemma PurgeIsAudited(cfg: Config, s: Store, h: seq<Entry>, now: string, cutoff: Instant)
    requires Inv(cfg, s, h)
    ensures var s', gone := AfterPurge(s, now, IsoText(cutoff)), |Expired(s.rows, IsoText(cutoff))|;
            && gone <= |s.rows|
            && (gone == 0 ==> s' == s)
            && (gone > 0 ==>
                  && |s'.audit| == |s.audit| + 1 && s'.audit[..|s.audit|] == s.audit
                  && s'.audit[|s.audit|] == AuditEntry(|s.audit| + 1, now, gone, s'.checkpoint)
                  && s'.checkpoint == s.rows[gone - 1].record.recordHash && s'.rows == s.rows[gone..])
  {
    var k := PurgeIsDrop(cfg, s, h, now, cutoff);
  }
}
