/** Complete mediation of effects (c3r/commit_gateway.py), and safety of whole sequences of
    verifications and commits through gateways that share one nonce store. */
module CommitGateway {
  import opened Schema
  import opened Authority

  datatype ApprovalGrant = ApprovalGrant(
    candidateId: string, actionFingerprint: string, policyVersion: string,
    authorityId: string, nonce: string, expiresAt: int, attestation: string)

  datatype CommitRequest = CommitRequest(
    candidate: ActionCandidate, verification: VerificationResult, approval: Option<ApprovalGrant>)

  datatype Gateway = Gateway(
    trustedVerifierIds: set<string>, verificationKey: string, approvalKey: string, policyVersion: string)

  datatype Reason =
    | UntrustedVerifier | VerificationCandidateMismatch | VerificationActionMismatch | VerificationPolicyMismatch
    | InvalidVerificationAttestation | VerificationFailed
    | ApprovalMissing | ApprovalCandidateMismatch | ApprovalActionMismatch | ApprovalPolicyMismatch
    | InvalidApprovalAttestation | ApprovalExpiredOrReplayed

  /** `Raised` is the ValueError of a key that is too short, `ExecutorRaised` an error of the
      executor, which `commit` passes on. */
  datatype CommitResult = Committed | Rejected(reason: Reason) | Raised | ExecutorRaised

  predicate NeedsApproval(c: ActionCandidate) {
    c.riskClass == ExternalWrite || c.riskClass == HighConsequence || c.riskClass == Destructive || c.riskClass == ApprovalRequired
  }

  function IntText(n: int): string
    decreases if n < 0 then 1 - n else n
  {
    if n < 0 then "-" + IntText(-n)
    else if n < 10 then ["0123456789"[n]]
    else IntText(n / 10) + ["0123456789"[n % 10]]
  }

  function ApprovalFields(a: ApprovalGrant): seq<string> {
    [a.authorityId, a.candidateId, a.actionFingerprint, a.policyVersion, a.nonce, IntText(a.expiresAt)]
  }

  predicate Matches(crypto: Crypto, key: string, attestation: string, fields: seq<string>) {
    attestation == crypto.mac(key, Join(fields))
  }

  function CheckVerification(crypto: Crypto, g: Gateway, r: CommitRequest): CommitResult {
    var v, c := r.verification, r.candidate;
    if v.verifierId !in g.trustedVerifierIds then Rejected(UntrustedVerifier)
    else if v.candidateId != c.id then Rejected(VerificationCandidateMismatch)
    else if v.actionFingerprint != Fingerprint(crypto, c) then Rejected(VerificationActionMismatch)
    else if v.policyVersion != g.policyVersion then Rejected(VerificationPolicyMismatch)
    else if |g.verificationKey| < MINIMUM_KEY_LENGTH then Raised
    else if !Matches(crypto, g.verificationKey, v.attestation, VerificationFields(v)) then Rejected(InvalidVerificationAttestation)
    else if !v.accepted then Rejected(VerificationFailed)
    else Committed
  }

  function CheckApproval(crypto: Crypto, g: Gateway, r: CommitRequest): CommitResult {
    if r.approval.None? then Rejected(ApprovalMissing)
    else
      var a, c := r.approval.value, r.candidate;
      if a.candidateId != c.id then Rejected(ApprovalCandidateMismatch)
      else if a.actionFingerprint != Fingerprint(crypto, c) then Rejected(ApprovalActionMismatch)
      else if a.policyVersion != g.policyVersion then Rejected(ApprovalPolicyMismatch)
      else if |g.approvalKey| < MINIMUM_KEY_LENGTH then Raised
      else if !Matches(crypto, g.approvalKey, a.attestation, ApprovalFields(a)) then Rejected(InvalidApprovalAttestation)
      else Committed
  }

  predicate Claimable(claimed: set<string>, a: ApprovalGrant, now: real) {
    now <= a.expiresAt as real && a.nonce !in claimed
  }

  /** What `commit` decides; `Committed` means that it calls the executor. */
  function Outcome(crypto: Crypto, g: Gateway, claimed: set<string>, r: CommitRequest, now: real): CommitResult {
    var first := CheckVerification(crypto, g, r);
    if first != Committed || !NeedsApproval(r.candidate) then first
    else
      var second := CheckApproval(crypto, g, r);
      if second != Committed then second
      else if !Claimable(claimed, r.approval.value, now) then Rejected(ApprovalExpiredOrReplayed)
      else Committed
  }

  function ClaimedAfter(claimed: set<string>, r: CommitRequest, outcome: CommitResult): set<string> {
    if outcome == Committed && NeedsApproval(r.candidate) && r.approval.Some? then claimed + {r.approval.value.nonce} else claimed
  }

  class NonceStore {
    var claimed: set<string>

    constructor ()
      ensures claimed == {}
    {
      claimed := {};
    }

    /** `InMemoryApprovalNonceStore.claim`. */
    method Claim(a: ApprovalGrant, now: real) returns (ok: bool)
      modifies this
      ensures ok == Claimable(old(claimed), a, now)
      ensures claimed == if ok then old(claimed) + {a.nonce} else old(claimed)
    {
      if now > a.expiresAt as real || a.nonce in claimed {
        return false;
      }
      claimed := claimed + {a.nonce};
      return true;
    }
  }

  /** The outside world: the actions the executor was called with, and after which calls it raises. */
  class Executor {
    const raises: seq<ActionCandidate> -> bool
    var executed: seq<ActionCandidate>

    constructor (raises: seq<ActionCandidate> -> bool)
      ensures this.raises == raises && executed == []
    {
      this.raises := raises;
      executed := [];
    }

    method Execute(c: ActionCandidate) returns (raised: bool)
      modifies this
      ensures executed == old(executed) + [c] && raised == raises(executed)
    {
      executed := executed + [c];
      return raises(executed);
    }
  }

  class TrustedCommitGateway {
    const crypto: Crypto
    const gateway: Gateway
    const store: NonceStore

    constructor (crypto: Crypto, gateway: Gateway, store: NonceStore)
      ensures this.crypto == crypto && this.gateway == gateway && this.store == store
    {
      this.crypto, this.gateway, this.store := crypto, gateway, store;
    }

    /** `commit`. */
    method Commit(r: CommitRequest, now: real, executor: Executor) returns (result: CommitResult)
      modifies store, executor
      ensures var decided := Outcome(crypto, gateway, old(store.claimed), r, now);
              && store.claimed == ClaimedAfter(old(store.claimed), r, decided)
              && executor.executed == old(executor.executed) + (if decided == Committed then [r.candidate] else [])
              && result == if decided == Committed && executor.raises(executor.executed) then ExecutorRaised else decided
    {
      var checked := CheckVerification(crypto, gateway, r);
      if checked != Committed {
        return checked;
      }
      if NeedsApproval(r.candidate) {
        checked := CheckApproval(crypto, gateway, r);
        if checked != Committed {
          return checked;
        }
        var claimed := store.Claim(r.approval.value, now);
        if !claimed {
          return Rejected(ApprovalExpiredOrReplayed);
        }
      }
      var raised := executor.Execute(r.candidate);
      return if raised then ExecutorRaised else Committed;
    }
  }

  // ----- Whole runs

  datatype Event =
    | Verification(firewall: Firewall, candidate: ActionCandidate)
    | Approval(grant: ApprovalGrant)   // the approving authority signs a grant
    | Commit(gateway: Gateway, request: CommitRequest, now: real)

  /** A call of the executor, whether or not it then raises: the request, the gateway it went
      through and the time. */
  datatype Effect = Effect(gateway: Gateway, request: CommitRequest, now: real)

  datatype World = World(issued: seq<VerificationResult>, granted: seq<ApprovalGrant>, claimed: set<string>, effects: seq<Effect>)

  const START: World := World([], [], {}, [])

  function Step(crypto: Crypto, w: World, e: Event): World {
    match e
    case Verification(fw, c) =>
      var v := VerifyAction(crypto, fw, c);
      if v.Some? then w.(issued := w.issued + [v.value]) else w
    case Approval(a) => w.(granted := w.granted + [a])
    case Commit(g, r, now) =>
      var outcome := Outcome(crypto, g, w.claimed, r, now);
      w.(claimed := ClaimedAfter(w.claimed, r, outcome),
         effects := if outcome == Committed then w.effects + [Effect(g, r, now)] else w.effects)
  }

  function Run(crypto: Crypto, events: seq<Event>): World {
    if events == [] then START else Step(crypto, Run(crypto, events[..|events| - 1]), events[|events| - 1])
  }

  /** A request that does not commit changes nothing. */
  lemma RejectedHasNoEffect(crypto: Crypto, w: World, g: Gateway, r: CommitRequest, now: real)
    requires Outcome(crypto, g, w.claimed, r, now) != Committed
    ensures Step(crypto, w, Commit(g, r, now)) == w
  {
  }

  /** The run without the requests that did not commit. */
  function WithoutRejected(crypto: Crypto, events: seq<Event>): seq<Event> {
    if events == [] then []
    else
      var init, e := events[..|events| - 1], events[|events| - 1];
      var kept := WithoutRejected(crypto, init);
      if e.Commit? && Outcome(crypto, e.gateway, Run(crypto, init).claimed, e.request, e.now) != Committed then kept else kept + [e]
  }

  /** Rejected requests have no effect on the rest of the run: leaving all of them out gives the
      same verifications, the same claimed nonces and the same effects. */
  lemma {:induction false} RejectedDoNotMatter(crypto: Crypto, events: seq<Event>)
    ensures Run(crypto, WithoutRejected(crypto, events)) == Run(crypto, events)
  {
    if events != [] {
      var init, e := events[..|events| - 1], events[|events| - 1];
      RejectedDoNotMatter(crypto, init);
      var kept := WithoutRejected(crypto, init);
      assert (kept + [e])[..|kept|] == kept;
      if e.Commit? && Outcome(crypto, e.gateway, Run(crypto, init).claimed, e.request, e.now) != Committed {
        RejectedHasNoEffect(crypto, Run(crypto, init), e.gateway, e.request, e.now);
      }
    }
  }

  /** A committed effect passed every check, with an approval in date where one is needed. */
  predicate Cleared(crypto: Crypto, e: Effect) {
    && CheckVerification(crypto, e.gateway, e.request) == Committed
    && (NeedsApproval(e.request.candidate) ==>
          CheckApproval(crypto, e.gateway, e.request) == Committed && e.now <= e.request.approval.value.expiresAt as real)
  }

  predicate UsesNonce(e: Effect, nonce: string) {
    NeedsApproval(e.request.candidate) && e.request.approval.Some? && e.request.approval.value.nonce == nonce
  }

  /** Every effect is cleared, its nonce is claimed, and no two effects share a nonce. */
  ghost predicate Safe(crypto: Crypto, w: World) {
    && (forall i :: 0 <= i < |w.effects| ==> Cleared(crypto, w.effects[i]))
    && (forall i, nonce :: 0 <= i < |w.effects| && UsesNonce(w.effects[i], nonce) ==> nonce in w.claimed)
    && (forall i, j, nonce :: 0 <= i < j < |w.effects| && UsesNonce(w.effects[i], nonce) ==> !UsesNonce(w.effects[j], nonce))
  }

  lemma EffectKeepsSafe(crypto: Crypto, w: World, e: Effect, claimed: set<string>)
    requires Safe(crypto, w) && Cleared(crypto, e) && w.claimed <= claimed
    requires forall nonce :: UsesNonce(e, nonce) ==> nonce !in w.claimed && nonce in claimed
    ensures Safe(crypto, w.(claimed := claimed, effects := w.effects + [e]))
  {
    var effects := w.effects + [e];
    forall i, j, nonce | 0 <= i < j < |effects| && UsesNonce(effects[i], nonce)
      ensures !UsesNonce(effects[j], nonce)
    {
      assert effects[i] == w.effects[i];
    }
  }

  lemma StepKeepsSafe(crypto: Crypto, w: World, e: Event)
    requires Safe(crypto, w)
    ensures Safe(crypto, Step(crypto, w, e))
  {
    if e.Commit? && Outcome(crypto, e.gateway, w.claimed, e.request, e.now) == Committed {
      EffectKeepsSafe(crypto, w, Effect(e.gateway, e.request, e.now), Step(crypto, w, e).claimed);
    }
  }

  /** Over any sequence of verifications and commits, through any gateways on one nonce store,
      every effect was cleared and each nonce backs at most one approval-class effect. */
  lemma {:induction false} EveryRunIsSafe(crypto: Crypto, events: seq<Event>)
    ensures Safe(crypto, Run(crypto, events))
  {
    if events != [] {
      EveryRunIsSafe(crypto, events[..|events| - 1]);
      StepKeepsSafe(crypto, Run(crypto, events[..|events| - 1]), events[|events| - 1]);
    }
  }

  // ----- Attestations come from the firewall

  /** The MAC is not forged: an attestation that matches was issued for the payload it covers. */
  predicate NotForged(crypto: Crypto, issued: seq<VerificationResult>, g: Gateway, r: CommitRequest) {
    Matches(crypto, g.verificationKey, r.verification.attestation, VerificationFields(r.verification)) ==>
      exists k :: 0 <= k < |issued| && Join(VerificationFields(issued[k])) == Join(VerificationFields(r.verification))
  }

  /** No NUL in the identifiers of a verification; its evidence may hold one. */
  predicate IdentifiersClean(v: VerificationResult) {
    NulFree(v.verifierId) && NulFree(v.candidateId) && NulFree(v.actionFingerprint) && NulFree(v.policyVersion)
  }

  /** What a firewall could check of every verification it issues. */
  predicate IssuedClean(issued: seq<VerificationResult>) {
    forall k :: 0 <= k < |issued| ==> IdentifiersClean(issued[k])
  }

  /** What a gateway could check of every verification presented to it. */
  predicate PresentedClean(events: seq<Event>) {
    forall n :: 0 <= n < |events| && events[n].Commit? ==> IdentifiersClean(events[n].request.verification)
  }

  /** Every commit of the run presents only attestations that the firewall has issued by then. */
  predicate Honest(crypto: Crypto, events: seq<Event>) {
    forall n :: 0 <= n < |events| && events[n].Commit? ==>
      NotForged(crypto, Run(crypto, events[..n]).issued, events[n].gateway, events[n].request)
  }

  /** An issued verification that accepted this action under the gateway's policy version. */
  predicate Attests(crypto: Crypto, v: VerificationResult, e: Effect) {
    && v.accepted
    && v.candidateId == e.request.candidate.id
    && v.actionFingerprint == Fingerprint(crypto, e.request.candidate)
    && v.policyVersion == e.gateway.policyVersion
    && v.verifierId in e.gateway.trustedVerifierIds
  }

  predicate Attested(crypto: Crypto, w: World, i: nat)
    requires i < |w.effects|
  {
    exists k :: 0 <= k < |w.issued| && Attests(crypto, w.issued[k], w.effects[i])
  }

  predicate AllAttested(crypto: Crypto, w: World) {
    forall i :: 0 <= i < |w.effects| ==> Attested(crypto, w, i)
  }

  function Flag(accepted: bool): (f: string)
    ensures NulFree(f)
  {
    if accepted then "1" else "0"
  }

  /** The text that an attestation of a verification covers. */
  function Signed(verifierId: string, candidateId: string, fingerprint: string, version: string, accepted: bool, evidence: string): string {
    verifierId + [NUL] + (candidateId + [NUL] + (fingerprint + [NUL] + (version + [NUL] + (Flag(accepted) + [NUL] + evidence))))
  }

  lemma SignedText(v: VerificationResult)
    ensures Join(VerificationFields(v)) == Signed(v.verifierId, v.candidateId, v.actionFingerprint, v.policyVersion, v.accepted, v.evidence)
  {
    JoinUnfolds(Flag(v.accepted), [v.evidence]);
    JoinUnfolds(v.policyVersion, [Flag(v.accepted)] + [v.evidence]);
    JoinUnfolds(v.actionFingerprint, [v.policyVersion] + ([Flag(v.accepted)] + [v.evidence]));
    JoinUnfolds(v.candidateId, [v.actionFingerprint] + ([v.policyVersion] + ([Flag(v.accepted)] + [v.evidence])));
    JoinUnfolds(v.verifierId, [v.candidateId] + ([v.actionFingerprint] + ([v.policyVersion] + ([Flag(v.accepted)] + [v.evidence]))));
    assert VerificationFields(v)
        == [v.verifierId] + ([v.candidateId] + ([v.actionFingerprint] + ([v.policyVersion] + ([Flag(v.accepted)] + [v.evidence]))));
  }

  /** Verifications with clean identifiers and the same signed text agree in everything signed. */
  lemma SignedDetermines(v: VerificationResult, w: VerificationResult)
    requires IdentifiersClean(v) && IdentifiersClean(w) && Join(VerificationFields(v)) == Join(VerificationFields(w))
    ensures v.verifierId == w.verifierId && v.candidateId == w.candidateId && v.actionFingerprint == w.actionFingerprint
    ensures v.policyVersion == w.policyVersion && v.accepted == w.accepted && v.evidence == w.evidence
  {
    SignedText(v);
    SignedText(w);
    var e, e' := Flag(v.accepted) + [NUL] + v.evidence, Flag(w.accepted) + [NUL] + w.evidence;
    var d, d' := v.policyVersion + [NUL] + e, w.policyVersion + [NUL] + e';
    var c, c' := v.actionFingerprint + [NUL] + d, w.actionFingerprint + [NUL] + d';
    FirstFieldFixed(v.verifierId, w.verifierId, v.candidateId + [NUL] + c, w.candidateId + [NUL] + c');
    FirstFieldFixed(v.candidateId, w.candidateId, c, c');
    FirstFieldFixed(v.actionFingerprint, w.actionFingerprint, d, d');
    FirstFieldFixed(v.policyVersion, w.policyVersion, e, e');
    FirstFieldFixed(Flag(v.accepted), Flag(w.accepted), v.evidence, w.evidence);
    assert "1"[0] != "0"[0];
  }

  lemma ClearedIsAttested(crypto: Crypto, issued: seq<VerificationResult>, e: Effect) returns (k: nat)
    requires CheckVerification(crypto, e.gateway, e.request) == Committed
    requires IssuedClean(issued) && IdentifiersClean(e.request.verification) && NotForged(crypto, issued, e.gateway, e.request)
    ensures k < |issued| && Attests(crypto, issued[k], e)
  {
    var presented := e.request.verification;
    k :| 0 <= k < |issued| && Join(VerificationFields(issued[k])) == Join(VerificationFields(presented));
    SignedDetermines(issued[k], presented);
  }

  /** In a run without forgery, where the firewall issues and the gateways are presented only
      verifications without NUL in their identifiers, every executed action carries an accepted
      verification that the firewall issued for that very fingerprint under the gateway's policy
      version. */
  lemma {:induction false} EveryEffectIsAttested(crypto: Crypto, events: seq<Event>)
    requires Honest(crypto, events) && IssuedClean(Run(crypto, events).issued) && PresentedClean(events)
    ensures AllAttested(crypto, Run(crypto, events))
  {
    if events != [] {
      var init, e := events[..|events| - 1], events[|events| - 1];
      var before, w := Run(crypto, init), Run(crypto, events);
      assert before.issued <= w.issued;
      forall n | 0 <= n < |init| && init[n].Commit?
        ensures NotForged(crypto, Run(crypto, init[..n]).issued, init[n].gateway, init[n].request)
      {
        assert init[..n] == events[..n] && init[n] == events[n];
      }
      EveryEffectIsAttested(crypto, init);
      forall i | 0 <= i < |w.effects|
        ensures Attested(crypto, w, i)
      {
        if i < |before.effects| {
          assert Attested(crypto, before, i);
          var k :| 0 <= k < |before.issued| && Attests(crypto, before.issued[k], before.effects[i]);
          assert w.issued[k] == before.issued[k] && w.effects[i] == before.effects[i];
        } else {
          assert events[..|events| - 1] == init;
          var k := ClearedIsAttested(crypto, before.issued, w.effects[i]);
          assert w.issued[k] == before.issued[k];
        }
      }
    }
  }

  // ----- Neither check can be left out

  /** A firewall whose only verifier rejects everything, with the given evidence. */
  function Rejecting(key: string, verifierId: string, version: string, evidence: string): Firewall {
    Firewall(map[verifierId := (c: ActionCandidate) => Opinion(false, evidence)], verifierId, map[], version, key)
  }

  function Rejection(crypto: Crypto, key: string, verifierId: string, version: string, evidence: string, c: ActionCandidate): VerificationResult {
    var unsigned := VerificationResult(verifierId, c.id, Fingerprint(crypto, c), version, false, evidence, "");
    unsigned.(attestation := crypto.mac(key, Join(VerificationFields(unsigned))))
  }

  /** An acceptance of `c` with a borrowed attestation. */
  function Presented(crypto: Crypto, verifierId: string, version: string, evidence: string, c: ActionCandidate, attestation: string): VerificationResult {
    VerificationResult(verifierId, c.id, Fingerprint(crypto, c), version, true, evidence, attestation)
  }

  function TwoSteps(crypto: Crypto, key: string, verifierId: string, version: string, rejected: ActionCandidate, evidence: string,
                    executed: ActionCandidate, presentedEvidence: string): seq<Event> {
    var v := Rejection(crypto, key, verifierId, version, evidence, rejected);
    [Verification(Rejecting(key, verifierId, version, evidence), rejected),
     Commit(Gateway({verifierId}, key, "", version),
            CommitRequest(executed, Presented(crypto, verifierId, version, presentedEvidence, executed, v.attestation), None), 0.0)]
  }

  lemma RejectionIssued(crypto: Crypto, key: string, verifierId: string, version: string, evidence: string, c: ActionCandidate)
    requires |key| >= MINIMUM_KEY_LENGTH
    ensures VerifyAction(crypto, Rejecting(key, verifierId, version, evidence), c)
         == Some(Rejection(crypto, key, verifierId, version, evidence, c))
  {
  }

  lemma FirstStep(crypto: Crypto, events: seq<Event>)
    requires |events| == 2
    ensures events[..0] == [] && Run(crypto, events[..1]) == Step(crypto, START, events[0])
    ensures Run(crypto, events) == Step(crypto, Step(crypto, START, events[0]), events[1])
  {
    assert events[..1][..0] == [] && events[..1][0] == events[0];
  }

  /** When a rejection and an acceptance of another action have the same signed text, the firewall
      only ever rejects, nothing is forged, and that other action is executed unattested. */
  lemma BorrowedAttestation(crypto: Crypto, key: string, verifierId: string, version: string, rejected: ActionCandidate, evidence: string,
                            executed: ActionCandidate, presentedEvidence: string)
    requires |key| >= MINIMUM_KEY_LENGTH && !NeedsApproval(executed)
    requires Signed(verifierId, rejected.id, Fingerprint(crypto, rejected), version, false, evidence)
          == Signed(verifierId, executed.id, Fingerprint(crypto, executed), version, true, presentedEvidence)
    ensures var events := TwoSteps(crypto, key, verifierId, version, rejected, evidence, executed, presentedEvidence);
            var w := Run(crypto, events);
            && Honest(crypto, events)
            && w.issued == [Rejection(crypto, key, verifierId, version, evidence, rejected)]
            && |w.effects| == 1 && w.effects[0].request.candidate == executed && !Attested(crypto, w, 0)
  {
    var events := TwoSteps(crypto, key, verifierId, version, rejected, evidence, executed, presentedEvidence);
    var v := Rejection(crypto, key, verifierId, version, evidence, rejected);
    var g, r := events[1].gateway, events[1].request;
    FirstStep(crypto, events);
    RejectionIssued(crypto, key, verifierId, version, evidence, rejected);
    assert Step(crypto, START, events[0]) == World([v], [], {}, []);
    SignedText(v);
    SignedText(r.verification);
    assert v.attestation == crypto.mac(key, Join(VerificationFields(v)));
    assert Outcome(crypto, g, {}, r, 0.0) == Committed;
    assert Join(VerificationFields([v][0])) == Join(VerificationFields(r.verification));
    assert NotForged(crypto, [v], g, r);
  }

  const DOT: string := "."

  lemma ShortTextsClean()
    ensures NulFree(DOT)
  {
  }

  /** An id that goes on, after a NUL, like the rest of an acceptance of the action `c`. */
  function Mimicking(crypto: Crypto, c: ActionCandidate, version: string): string {
    c.id + [NUL] + (Fingerprint(crypto, c) + [NUL] + (version + [NUL] + (Flag(true) + [NUL] + DOT)))
  }

  /** A NUL in the id of a verified candidate is enough: for every action that needs no approval,
      every key and every policy version, the rejection of a candidate with a mimicking id can be
      presented as an acceptance of the action, with clean identifiers. */
  lemma IssuedNulSuffices(crypto: Crypto, key: string, verifierId: string, version: string, executed: ActionCandidate)
    requires |key| >= MINIMUM_KEY_LENGTH && !NeedsApproval(executed)
    ensures var rejected := executed.(id := Mimicking(crypto, executed, version));
            var evidence := DOT + [NUL] + (Fingerprint(crypto, rejected) + [NUL] + (version + [NUL] + (Flag(false) + [NUL] + DOT)));
            var events := TwoSteps(crypto, key, verifierId, version, rejected, DOT, executed, evidence);
            && Honest(crypto, events) && |Run(crypto, events).effects| == 1
            && Run(crypto, events).effects[0].request.candidate == executed && !Attested(crypto, Run(crypto, events), 0)
  {
    var rejected := executed.(id := Mimicking(crypto, executed, version));
    var tail := Fingerprint(crypto, rejected) + [NUL] + (version + [NUL] + (Flag(false) + [NUL] + DOT));
    var evidence := DOT + [NUL] + tail;
    MoveNul(executed.id, Fingerprint(crypto, executed), version, Flag(true), DOT, tail);
    assert Signed(verifierId, rejected.id, Fingerprint(crypto, rejected), version, false, DOT) == verifierId + [NUL] + (rejected.id + [NUL] + tail);
    BorrowedAttestation(crypto, key, verifierId, version, rejected, DOT, executed, evidence);
  }

  lemma MoveNul(a: string, b: string, c: string, d: string, e: string, tail: string)
    ensures (a + [NUL] + (b + [NUL] + (c + [NUL] + (d + [NUL] + e)))) + [NUL] + tail
         == a + [NUL] + (b + [NUL] + (c + [NUL] + (d + [NUL] + (e + [NUL] + tail))))
  {
  }

  /** A NUL in the id of a committed candidate is enough too, if evidence may hold one: the
      rejection of a candidate with a clean id can be presented as an acceptance of an action whose
      id goes on like the rest of the rejection. */
  lemma PresentedNulSuffices(crypto: Crypto, key: string, verifierId: string, version: string, rejected: ActionCandidate)
    requires |key| >= MINIMUM_KEY_LENGTH && !NeedsApproval(rejected)
    ensures var executed := rejected.(id := rejected.id + [NUL] + (Fingerprint(crypto, rejected) + [NUL] + (version + [NUL] + (Flag(false) + [NUL] + DOT))));
            var evidence := DOT + [NUL] + (Fingerprint(crypto, executed) + [NUL] + (version + [NUL] + (Flag(true) + [NUL] + DOT)));
            var events := TwoSteps(crypto, key, verifierId, version, rejected, evidence, executed, DOT);
            && Honest(crypto, events) && |Run(crypto, events).effects| == 1
            && Run(crypto, events).effects[0].request.candidate == executed && !Attested(crypto, Run(crypto, events), 0)
            && Run(crypto, events).issued == [Rejection(crypto, key, verifierId, version, evidence, rejected)]
  {
    var executed := rejected.(id := rejected.id + [NUL] + (Fingerprint(crypto, rejected) + [NUL] + (version + [NUL] + (Flag(false) + [NUL] + DOT))));
    var tail := Fingerprint(crypto, executed) + [NUL] + (version + [NUL] + (Flag(true) + [NUL] + DOT));
    var evidence := DOT + [NUL] + tail;
    MoveNul(rejected.id, Fingerprint(crypto, rejected), version, Flag(false), DOT, tail);
    assert Signed(verifierId, executed.id, Fingerprint(crypto, executed), version, true, DOT) == verifierId + [NUL] + (executed.id + [NUL] + tail);
    BorrowedAttestation(crypto, key, verifierId, version, rejected, evidence, executed, DOT);
  }

  /** Digests are hexadecimal, so they hold no NUL. */
  ghost predicate CleanDigests(crypto: Crypto) {
    forall x :: NulFree(crypto.digest(x))
  }

  /** Every run without forgery that passes the checks in force is attested. */
  ghost predicate ChecksSuffice(crypto: Crypto, checkIssued: bool, checkPresented: bool) {
    forall events: seq<Event> ::
      Honest(crypto, events) && (checkIssued ==> IssuedClean(Run(crypto, events).issued)) && (checkPresented ==> PresentedClean(events))
      ==> AllAttested(crypto, Run(crypto, events))
  }

  const KEY: string := "0123456789abcdef"

  const PLAIN: ActionCandidate := ActionCandidate(".", Tool, ReadOnly, 0.0, None, [])

  /** Every effect is attested exactly when both checks are made: the firewall refuses to issue, and
      the gateway refuses to accept, a verification with a NUL in its identifiers. */
  lemma BothChecksAreNeeded(crypto: Crypto, checkIssued: bool, checkPresented: bool)
    requires CleanDigests(crypto)
    ensures ChecksSuffice(crypto, checkIssued, checkPresented) <==> checkIssued && checkPresented
  {
    ShortTextsClean();
    if checkIssued && checkPresented {
      forall events: seq<Event> | Honest(crypto, events) && IssuedClean(Run(crypto, events).issued) && PresentedClean(events)
        ensures AllAttested(crypto, Run(crypto, events))
      {
        EveryEffectIsAttested(crypto, events);
      }
    } else if !checkIssued {
      var rejected := PLAIN.(id := Mimicking(crypto, PLAIN, DOT));
      var evidence := DOT + [NUL] + (Fingerprint(crypto, rejected) + [NUL] + (DOT + [NUL] + (Flag(false) + [NUL] + DOT)));
      IssuedNulSuffices(crypto, KEY, DOT, DOT, PLAIN);
      var events := TwoSteps(crypto, KEY, DOT, DOT, rejected, DOT, PLAIN, evidence);
      assert PresentedClean(events);
      assert !AllAttested(crypto, Run(crypto, events));
    } else {
      var executed := PLAIN.(id := PLAIN.id + [NUL] + (Fingerprint(crypto, PLAIN) + [NUL] + (DOT + [NUL] + (Flag(false) + [NUL] + DOT))));
      var evidence := DOT + [NUL] + (Fingerprint(crypto, executed) + [NUL] + (DOT + [NUL] + (Flag(true) + [NUL] + DOT)));
      PresentedNulSuffices(crypto, KEY, DOT, DOT, PLAIN);
      var events := TwoSteps(crypto, KEY, DOT, DOT, PLAIN, evidence, executed, DOT);
      assert IssuedClean(Run(crypto, events).issued);
      assert !AllAttested(crypto, Run(crypto, events));
    }
  }
}
