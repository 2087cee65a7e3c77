/** The hash-chained trace ledger (c3r/telemetry/trace_ledger.py). SHA-256 is an arbitrary
    function with 64-character digests; instead of pretending it injective, the tamper
    theorem ends in "equal, or here is a collision". */
module TraceLedger {
  import opened Schema
  import opened Unicode

  datatype LedgerRecord = LedgerRecord(previousHash: Text, recordHash: Text, canonicalJson: Text)

  /** The foreign functions: `hashlib.sha256(...).hexdigest()` and decoding followed by
      canonical re-encoding of JSON, `None` where `json` raises. */
  datatype Primitives = Primitives(sha256: Text -> Text, recode: Text -> Option<Text>)

  const NEWLINE: CodePoint := 10

  function Zeros(n: nat): (z: Text)
    ensures |z| == n && forall i :: 0 <= i < n ==> z[i] == 0x30
  {
    seq(n, _ => 0x30)
  }

  const GENESIS: Text := Zeros(64)

  predicate IsHexDigit(c: CodePoint) { 0x30 <= c <= 0x39 || 0x61 <= c <= 0x66 }

  ghost predicate HexDigests(sha256: Text -> Text) {
    forall x :: |sha256(x)| == 64 && forall i :: 0 <= i < 64 ==> IsHexDigit(sha256(x)[i])
  }

  function Preimage(previousHash: Text, canonicalJson: Text): Text {
    previousHash + [NEWLINE] + canonicalJson
  }

  /** `record_hash`; its argument must be encodable or it raises. */
  function RecordHash(prims: Primitives, previousHash: Text, canonicalJson: Text): Text {
    prims.sha256(Preimage(previousHash, canonicalJson))
  }

  function HashBefore(start: Text, records: seq<LedgerRecord>, i: nat): Text
    requires i <= |records|
  {
    if i == 0 then start else records[i - 1].recordHash
  }

  /** Record `i` continues the chain, carries canonical JSON and its own hash. */
  predicate LinkHolds(prims: Primitives, start: Text, records: seq<LedgerRecord>, i: nat)
    requires i < |records|
  {
    Follows(prims, HashBefore(start, records, i), records[i])
  }

  predicate Follows(prims: Primitives, previous: Text, r: LedgerRecord) {
    && r.previousHash == previous
    && prims.recode(r.canonicalJson) == Some(r.canonicalJson)
    && Encodable(Preimage(previous, r.canonicalJson))
    && r.recordHash == RecordHash(prims, previous, r.canonicalJson)
  }

  /** An unbroken chain that starts at the hash `start`. */
  predicate Chain(prims: Primitives, start: Text, records: seq<LedgerRecord>) {
    forall i :: 0 <= i < |records| ==> LinkHolds(prims, start, records, i)
  }

  function HeadHash(start: Text, records: seq<LedgerRecord>): Text {
    HashBefore(start, records, |records|)
  }

  /** The record that `append` adds after `records`. */
  function NextRecord(prims: Primitives, start: Text, records: seq<LedgerRecord>, canonicalJson: Text): LedgerRecord {
    var previous := HeadHash(start, records);
    LedgerRecord(previous, RecordHash(prims, previous, canonicalJson), canonicalJson)
  }

  /** The outcome of `verify`: a verdict, or the UnicodeEncodeError of hashing a surrogate. */
  datatype Verdict = Accepted | Rejected | Raised

  /** Record `i` is the first that does not continue the chain, it is in place and canonical, but
      its text cannot be encoded. */
  predicate FirstUnhashable(prims: Primitives, records: seq<LedgerRecord>, i: nat)
    requires i < |records|
  {
    var previous, r := HashBefore(GENESIS, records, i), records[i];
    && (forall j :: 0 <= j < i ==> LinkHolds(prims, GENESIS, records, j))
    && r.previousHash == previous && prims.recode(r.canonicalJson) == Some(r.canonicalJson)
    && !Encodable(Preimage(previous, r.canonicalJson))
  }

  lemma OnlyFirstUnhashable(prims: Primitives, records: seq<LedgerRecord>, i: nat)
    requires i < |records| && !LinkHolds(prims, GENESIS, records, i) && forall j :: 0 <= j < i ==> LinkHolds(prims, GENESIS, records, j)
    ensures (exists k :: 0 <= k < |records| && FirstUnhashable(prims, records, k)) <==> FirstUnhashable(prims, records, i)
  {
    forall k | 0 <= k < |records| && FirstUnhashable(prims, records, k)
      ensures k == i
    {
      assert !LinkHolds(prims, GENESIS, records, k);
    }
  }

  lemma ChainIsHashable(prims: Primitives, records: seq<LedgerRecord>)
    requires Chain(prims, GENESIS, records)
    ensures forall k :: 0 <= k < |records| ==> !FirstUnhashable(prims, records, k)
  {
    forall k | 0 <= k < |records|
      ensures !FirstUnhashable(prims, records, k)
    {
      assert LinkHolds(prims, GENESIS, records, k);
    }
  }

  /** `TraceLedger.verify`. */
  method VerifyRecords(prims: Primitives, records: seq<LedgerRecord>) returns (verdict: Verdict)
    ensures verdict == Accepted <==> Chain(prims, GENESIS, records)
    ensures verdict == Raised <==> exists i :: 0 <= i < |records| && FirstUnhashable(prims, records, i)
  {
    var previous := GENESIS;
    for i := 0 to |records|
      invariant previous == HashBefore(GENESIS, records, i)
      invariant forall j :: 0 <= j < i ==> LinkHolds(prims, GENESIS, records, j)
    {
      var record := records[i];
      if record.previousHash != previous {
        OnlyFirstUnhashable(prims, records, i);
        return Rejected;
      }
      var canonical := prims.recode(record.canonicalJson);
      if canonical.None? || canonical.value != record.canonicalJson {
        OnlyFirstUnhashable(prims, records, i);
        return Rejected;
      }
      if !Encodable(Preimage(previous, canonical.value)) {
        OnlyFirstUnhashable(prims, records, i);
        return Raised;
      }
      if RecordHash(prims, previous, canonical.value) != record.recordHash {
        OnlyFirstUnhashable(prims, records, i);
        return Rejected;
      }
      previous := record.recordHash;
    }
    ChainIsHashable(prims, records);
    return Accepted;
  }

  class Ledger {
    const prims: Primitives
    var records: seq<LedgerRecord>

    ghost predicate Valid()
      reads this
    {
      Chain(prims, GENESIS, records)
    }

    constructor (prims: Primitives)
      ensures Valid() && this.prims == prims && records == []
    {
      this.prims := prims;
      records := [];
    }

    /** `append`; `None` is the UnicodeEncodeError of a surrogate in the trace. The caller
        hands over the canonical encoding of its trace, which re-encodes to itself. */
    method Append(canonical: Text) returns (record: Option<LedgerRecord>)
      requires Valid() && HexDigests(prims.sha256) && prims.recode(canonical) == Some(canonical)
      modifies this
      ensures Valid()
      ensures record.Some? <==> Encodable(canonical)
      ensures record.Some? ==>
                && record.value == NextRecord(prims, GENESIS, old(records), canonical)
                && records == old(records) + [record.value]
      ensures record.None? ==> records == old(records)
    {
      var previous := if records != [] then records[|records| - 1].recordHash else GENESIS;
      HeadIsHex(prims, GENESIS, records);
      EncodablePreimage(previous, canonical);
      if !Encodable(Preimage(previous, canonical)) {
        return None;
      }
      var next := LedgerRecord(previous, RecordHash(prims, previous, canonical), canonical);
      ChainGrows(prims, GENESIS, records, canonical);
      records := records + [next];
      return Some(next);
    }
  }

  // ----- Facts about chains

  ghost predicate IsHexHash(h: Text) {
    |h| == 64 && forall i :: 0 <= i < 64 ==> IsHexDigit(h[i])
  }

  lemma HeadIsHex(prims: Primitives, start: Text, records: seq<LedgerRecord>)
    requires Chain(prims, start, records) && HexDigests(prims.sha256) && IsHexHash(start)
    ensures IsHexHash(HeadHash(start, records))
  {
    if records != [] {
      assert LinkHolds(prims, start, records, |records| - 1);
    }
  }

  lemma EncodablePreimage(previous: Text, canonical: Text)
    requires IsHexHash(previous)
    ensures Encodable(Preimage(previous, canonical)) <==> Encodable(canonical)
  {
    var p := Preimage(previous, canonical);
    assert |p| == 65 + |canonical|;
    if Encodable(p) {
      forall i | 0 <= i < |canonical|
        ensures !IsHighSurrogate(canonical[i]) && !IsLowSurrogate(canonical[i])
      {
        assert canonical[i] == p[65 + i];
      }
    }
  }

  lemma ChainPrefix(prims: Primitives, start: Text, records: seq<LedgerRecord>, n: nat)
    requires Chain(prims, start, records) && n <= |records|
    ensures Chain(prims, start, records[..n])
  {
    forall i | 0 <= i < n
      ensures LinkHolds(prims, start, records[..n], i)
    {
      assert LinkHolds(prims, start, records, i);
    }
  }

  /** What is left of a chain after dropping `n` records is a chain from the last dropped hash. */
  lemma ChainSuffix(prims: Primitives, start: Text, records: seq<LedgerRecord>, n: nat)
    requires Chain(prims, start, records) && n <= |records|
    ensures Chain(prims, HashBefore(start, records, n), records[n..])
    ensures HeadHash(HashBefore(start, records, n), records[n..]) == HeadHash(start, records)
  {
    forall i | 0 <= i < |records[n..]|
      ensures LinkHolds(prims, HashBefore(start, records, n), records[n..], i)
    {
      assert LinkHolds(prims, start, records, n + i);
    }
  }

  /** Appending a record with canonical, encodable JSON keeps the chain unbroken. */
  lemma ChainGrows(prims: Primitives, start: Text, records: seq<LedgerRecord>, canonical: Text)
    requires Chain(prims, start, records) && prims.recode(canonical) == Some(canonical)
    requires Encodable(Preimage(HeadHash(start, records), canonical))
    ensures Chain(prims, start, records + [NextRecord(prims, start, records, canonical)])
  {
    var longer := records + [NextRecord(prims, start, records, canonical)];
    forall i | 0 <= i < |longer|
      ensures LinkHolds(prims, start, longer, i)
    {
      if i < |records| {
        assert LinkHolds(prims, start, records, i);
        assert HashBefore(start, longer, i) == HashBefore(start, records, i);
      }
    }
  }

  lemma PreimageInjective(p: Text, j: Text, p': Text, j': Text)
    requires |p| == |p'| && Preimage(p, j) == Preimage(p', j')
    ensures p == p' && j == j'
  {
    assert p == Preimage(p, j)[..|p|] && p' == Preimage(p', j')[..|p'|];
    assert j == Preimage(p, j)[|p| + 1..] && j' == Preimage(p', j')[|p'| + 1..];
  }

  /** The text whose hash record `r` carries. */
  function Hashed(r: LedgerRecord): Text { Preimage(r.previousHash, r.canonicalJson) }

  /** Record `i` of `a` and record `j` of `b` were hashed from different texts to the same digest. */
  predicate Collide(prims: Primitives, a: seq<LedgerRecord>, b: seq<LedgerRecord>, i: nat, j: nat)
    requires i < |a| && j < |b|
  {
    Hashed(a[i]) != Hashed(b[j]) && prims.sha256(Hashed(a[i])) == prims.sha256(Hashed(b[j]))
  }

  /** Record `i` hashes to the genesis value. */
  predicate HitsGenesis(prims: Primitives, records: seq<LedgerRecord>, i: nat)
    requires i < |records|
  {
    prims.sha256(Hashed(records[i])) == GENESIS
  }

  /** How two verified ledgers with the same last hash relate. */
  datatype Comparison = Equal | Collision(i: nat, j: nat) | GenesisIn(left: bool, index: nat)

  /** Tamper evidence. Two verified ledgers with the same last hash are equal record by record,
      unless a record of one and a record of the other, equally far from their ends, were hashed
      from different texts to the same digest, or (only when the lengths differ) a record of the
      longer ledger hashes to the genesis value. */
  lemma {:induction false} SameHeadSameLedger(prims: Primitives, a: seq<LedgerRecord>, b: seq<LedgerRecord>)
    returns (c: Comparison)
    requires HexDigests(prims.sha256) && Chain(prims, GENESIS, a) && Chain(prims, GENESIS, b)
    requires HeadHash(GENESIS, a) == HeadHash(GENESIS, b)
    ensures c.Equal? ==> a == b
    ensures c.Collision? ==> c.i < |a| && c.j < |b| && |a| - c.i == |b| - c.j && Collide(prims, a, b, c.i, c.j)
    ensures c.GenesisIn? ==>
              if c.left then |a| > |b| && c.index == |a| - |b| - 1 && HitsGenesis(prims, a, c.index)
              else |b| > |a| && c.index == |b| - |a| - 1 && HitsGenesis(prims, b, c.index)
    decreases |a|
  {
    if a == [] && b == [] {
      return Equal;
    }
    if b == [] {
      assert LinkHolds(prims, GENESIS, a, |a| - 1);
      return GenesisIn(true, |a| - 1);
    }
    if a == [] {
      assert LinkHolds(prims, GENESIS, b, |b| - 1);
      return GenesisIn(false, |b| - 1);
    }
    var m, n := |a| - 1, |b| - 1;
    assert LinkHolds(prims, GENESIS, a, m) && LinkHolds(prims, GENESIS, b, n);
    if Hashed(a[m]) != Hashed(b[n]) {
      return Collision(m, n);
    }
    ChainPrefix(prims, GENESIS, a, m);
    ChainPrefix(prims, GENESIS, b, n);
    HeadIsHex(prims, GENESIS, a[..m]);
    HeadIsHex(prims, GENESIS, b[..n]);
    PreimageInjective(a[m].previousHash, a[m].canonicalJson, b[n].previousHash, b[n].canonicalJson);
    c := SameHeadSameLedger(prims, a[..m], b[..n]);
    assert a == a[..m] + [a[m]] && b == b[..n] + [b[n]];
  }

  /** With a hash that does not collide on the two ledgers, equally long verified ledgers with the
      same last hash are equal record by record. */
  lemma CollisionFreeLedgers(prims: Primitives, a: seq<LedgerRecord>, b: seq<LedgerRecord>)
    requires HexDigests(prims.sha256) && Chain(prims, GENESIS, a) && Chain(prims, GENESIS, b) && |a| == |b|
    requires forall i, j :: 0 <= i < |a| && 0 <= j < |b| ==> !Collide(prims, a, b, i, j)
    ensures HeadHash(GENESIS, a) == HeadHash(GENESIS, b) <==> a == b
  {
    if HeadHash(GENESIS, a) == HeadHash(GENESIS, b) {
      var c := SameHeadSameLedger(prims, a, b);
    }
  }

  /** Record `i` names the hash of the record before it, or genesis, carries canonical JSON that can be
      encoded after it, and its own hash. */
  predicate Continues(prims: Primitives, records: seq<LedgerRecord>, i: nat)
    requires i < |records|
  {
    var r, previous := records[i], if i == 0 then GENESIS else records[i - 1].recordHash;
    && r.previousHash == previous && prims.recode(r.canonicalJson).Some? && prims.recode(r.canonicalJson).value == r.canonicalJson
    && Encodable(previous + [10] + r.canonicalJson) && r.recordHash == prims.sha256(previous + [10] + r.canonicalJson)
  }

  /** A ledger verifies exactly when every record continues the one before it. */
  lemma ChainMeans(prims: Primitives, records: seq<LedgerRecord>)
    ensures Chain(prims, GENESIS, records) <==> forall i :: 0 <= i < |records| ==> Continues(prims, records, i)
  {
    forall i | 0 <= i < |records|
      ensures LinkHolds(prims, GENESIS, records, i) <==> Continues(prims, records, i)
    {
      LinkMeans(prims, records, i);
    }
  }

  lemma LinkMeans(prims: Primitives, records: seq<LedgerRecord>, i: nat)
    requires i < |records|
    ensures LinkHolds(prims, GENESIS, records, i) <==> Continues(prims, records, i)
  {
  }
}
