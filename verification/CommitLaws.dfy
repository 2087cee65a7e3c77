/** When a commit is executed, from the fields of the request alone, and where its approval came
    from. */
module CommitLaws {
  import opened Schema
  import opened Authority
  import opened CommitGateway

  // ----- What a committed request carries

  /** Fields joined by NUL, the text that a MAC covers. */
  function Joined(a: string, b: string, c: string, d: string, e: string, f: string): string {
    a + [NUL] + (b + [NUL] + (c + [NUL] + (d + [NUL] + (e + [NUL] + f))))
  }

  lemma JoinedIsJoin(a: string, b: string, c: string, d: string, e: string, f: string)
    ensures Join([a, b, c, d, e, f]) == Joined(a, b, c, d, e, f)
  {
    JoinUnfolds(e, [f]);
    JoinUnfolds(d, [e] + [f]);
    JoinUnfolds(c, [d] + ([e] + [f]));
    JoinUnfolds(b, [c] + ([d] + ([e] + [f])));
    JoinUnfolds(a, [b] + ([c] + ([d] + ([e] + [f]))));
    assert [a, b, c, d, e, f] == [a] + ([b] + ([c] + ([d] + ([e] + [f]))));
  }

  /** An accepted verification of this action by a trusted verifier under the gateway's policy
      version, with the MAC of its six fields under the verification key. */
  predicate Verified(crypto: Crypto, g: Gateway, r: CommitRequest) {
    var v, c := r.verification, r.candidate;
    && v.accepted && v.verifierId in g.trustedVerifierIds
    && v.candidateId == c.id && v.actionFingerprint == Fingerprint(crypto, c) && v.policyVersion == g.policyVersion
    && |g.verificationKey| >= 16
    && v.attestation == crypto.mac(g.verificationKey, Joined(v.verifierId, v.candidateId, v.actionFingerprint, v.policyVersion, "1", v.evidence))
  }

  /** A risk class that a human has to approve. */
  predicate Risky(c: ActionCandidate) { c.riskClass in {ExternalWrite, HighConsequence, Destructive, ApprovalRequired} }

  /** An approval of this action under the gateway's policy version, in date, with the MAC of its six
      fields under the approval key. */
  predicate Approved(crypto: Crypto, g: Gateway, r: CommitRequest, now: real) {
    && r.approval.Some?
    && var a, c := r.approval.value, r.candidate;
    && a.candidateId == c.id && a.actionFingerprint == Fingerprint(crypto, c) && a.policyVersion == g.policyVersion
    && now <= a.expiresAt as real && |g.approvalKey| >= 16
    && a.attestation == crypto.mac(g.approvalKey, Joined(a.authorityId, a.candidateId, a.actionFingerprint, a.policyVersion, a.nonce, IntText(a.expiresAt)))
  }

  predicate Authorised(crypto: Crypto, g: Gateway, r: CommitRequest, now: real) {
    Verified(crypto, g, r) && (Risky(r.candidate) ==> Approved(crypto, g, r, now))
  }

  lemma VerifiedMeans(crypto: Crypto, g: Gateway, r: CommitRequest)
    ensures CheckVerification(crypto, g, r) == Committed <==> Verified(crypto, g, r)
  {
    var v := r.verification;
    JoinedIsJoin(v.verifierId, v.candidateId, v.actionFingerprint, v.policyVersion, if v.accepted then "1" else "0", v.evidence);
  }

  lemma ApprovedMeans(crypto: Crypto, g: Gateway, r: CommitRequest, now: real)
    ensures CheckApproval(crypto, g, r) == Committed && now <= r.approval.value.expiresAt as real <==> Approved(crypto, g, r, now)
  {
    if r.approval.Some? {
      var a := r.approval.value;
      JoinedIsJoin(a.authorityId, a.candidateId, a.actionFingerprint, a.policyVersion, a.nonce, IntText(a.expiresAt));
    }
  }

  lemma RiskyMeans(c: ActionCandidate)
    ensures NeedsApproval(c) <==> Risky(c)
  {
  }

  /** A request is committed exactly when it is verified and, for a risky action, approved in date
      with a nonce that was not claimed before. */
  lemma CommittedExactlyWhen(crypto: Crypto, g: Gateway, claimed: set<string>, r: CommitRequest, now: real)
    ensures Outcome(crypto, g, claimed, r, now) == Committed
       <==> Authorised(crypto, g, r, now) && (Risky(r.candidate) ==> r.approval.value.nonce !in claimed)
  {
    VerifiedMeans(crypto, g, r);
    ApprovedMeans(crypto, g, r, now);
    RiskyMeans(r.candidate);
  }

  /** Every effect of every run was authorised, from the fields of its request. */
  lemma EveryEffectIsAuthorised(crypto: Crypto, events: seq<Event>, i: nat)
    requires i < |Run(crypto, events).effects|
    ensures var e := Run(crypto, events).effects[i];
            Authorised(crypto, e.gateway, e.request, e.now)
  {
    EveryRunIsSafe(crypto, events);
    var e := Run(crypto, events).effects[i];
    assert Cleared(crypto, e);
    VerifiedMeans(crypto, e.gateway, e.request);
    ApprovedMeans(crypto, e.gateway, e.request, e.now);
    RiskyMeans(e.request.candidate);
  }

  /** No two risky effects of a run carry the same nonce. */
  lemma NoncesAreSpentOnce(crypto: Crypto, events: seq<Event>, i: nat, j: nat)
    requires i < j < |Run(crypto, events).effects|
    requires Risky(Run(crypto, events).effects[i].request.candidate) && Risky(Run(crypto, events).effects[j].request.candidate)
    ensures var a, b := Run(crypto, events).effects[i].request.approval, Run(crypto, events).effects[j].request.approval;
            a.Some? && b.Some? && a.value.nonce != b.value.nonce
  {
    EveryRunIsSafe(crypto, events);
    EveryEffectIsAuthorised(crypto, events, i);
    EveryEffectIsAuthorised(crypto, events, j);
    var x, y := Run(crypto, events).effects[i], Run(crypto, events).effects[j];
    RiskyMeans(x.request.candidate);
    RiskyMeans(y.request.candidate);
    assert UsesNonce(x, x.request.approval.value.nonce);
    assert UsesNonce(y, y.request.approval.value.nonce);
  }

  // ----- What the firewall issues

  /** The verifier that the risk class names, or else the default: never one the candidate asks for. */
  function NamedVerifier(fw: Firewall, risk: RiskClass): string { if risk in fw.byRisk then fw.byRisk[risk] else fw.defaultVerifier }

  /** The firewall issues exactly the opinion of the verifier that its policy names, on this candidate
      and fingerprint, under its policy version, with the MAC of the six fields under its key. */
  lemma IssuedExactlyWhen(crypto: Crypto, fw: Firewall, c: ActionCandidate, v: VerificationResult)
    ensures VerifyAction(crypto, fw, c) == Some(v) <==>
              && v.verifierId == NamedVerifier(fw, c.riskClass) && v.verifierId in fw.verifiers && |fw.attestationKey| >= 16
              && fw.verifiers[v.verifierId](c) == Opinion(v.accepted, v.evidence)
              && v.candidateId == c.id && v.actionFingerprint == Fingerprint(crypto, c) && v.policyVersion == fw.version
              && v.attestation == crypto.mac(fw.attestationKey, Joined(v.verifierId, c.id, v.actionFingerprint, fw.version, if v.accepted then "1" else "0", v.evidence))
  {
    JoinedIsJoin(v.verifierId, c.id, v.actionFingerprint, fw.version, if v.accepted then "1" else "0", v.evidence);
    var id := NamedVerifier(fw, c.riskClass);
    if id in fw.verifiers && fw.verifiers[id](c).Opinion? {
      var o := fw.verifiers[id](c);
      JoinedIsJoin(id, c.id, Fingerprint(crypto, c), fw.version, if o.accepted then "1" else "0", o.evidence);
    }
  }

  // ----- Approvals come from the authority

  /** An approval that matches was granted for the text it covers. */
  predicate NotForgedApproval(crypto: Crypto, granted: seq<ApprovalGrant>, g: Gateway, r: CommitRequest) {
    r.approval.Some? && Matches(crypto, g.approvalKey, r.approval.value.attestation, ApprovalFields(r.approval.value)) ==>
      exists k :: 0 <= k < |granted| && Join(ApprovalFields(granted[k])) == Join(ApprovalFields(r.approval.value))
  }

  /** Every commit of the run presents only approvals that the authority has granted by then. */
  predicate HonestApprovals(crypto: Crypto, events: seq<Event>) {
    forall n :: 0 <= n < |events| && events[n].Commit? ==>
      NotForgedApproval(crypto, Run(crypto, events[..n]).granted, events[n].gateway, events[n].request)
  }

  /** A grant without NUL in its fields. */
  predicate GrantClean(a: ApprovalGrant) {
    NulFree(a.authorityId) && NulFree(a.candidateId) && NulFree(a.actionFingerprint) && NulFree(a.policyVersion) && NulFree(a.nonce)
  }

  /** What an authority could check of every grant it signs. */
  predicate GrantsClean(granted: seq<ApprovalGrant>) { forall k :: 0 <= k < |granted| ==> GrantClean(granted[k]) }

  /** The authority granted this very action, under the gateway's policy version, with this nonce and
      an expiry that had not passed. */
  predicate Grants(crypto: Crypto, a: ApprovalGrant, e: Effect) {
    && e.request.approval.Some? && a.nonce == e.request.approval.value.nonce
    && a.candidateId == e.request.candidate.id && a.actionFingerprint == Fingerprint(crypto, e.request.candidate)
    && a.policyVersion == e.gateway.policyVersion && e.now <= a.expiresAt as real
  }

  predicate Granted(crypto: Crypto, w: World, i: nat)
    requires i < |w.effects|
  {
    Risky(w.effects[i].request.candidate) ==> exists k :: 0 <= k < |w.granted| && Grants(crypto, w.granted[k], w.effects[i])
  }

  predicate AllGranted(crypto: Crypto, w: World) { forall i :: 0 <= i < |w.effects| ==> Granted(crypto, w, i) }

  // The decimal text of an expiry determines it and holds no NUL.

  function Digit(c: char): int { c as int - '0' as int }

  function Value(s: string): int {
    if s == "" then 0 else 10 * Value(s[..|s| - 1]) + Digit(s[|s| - 1])
  }

  function SignedValue(s: string): int { if s != "" && s[0] == '-' then -Value(s[1..]) else Value(s) }

  lemma DigitOf(n: nat)
    requires n < 10
    ensures "0123456789"[n] != '-' && "0123456789"[n] != NUL && Digit("0123456789"[n]) == n
  {
  }

  lemma {:induction false} NatText(n: nat)
    ensures IntText(n) != "" && IntText(n)[0] != '-' && Value(IntText(n)) == n && NulFree(IntText(n))
    decreases n
  {
    var d := if n < 10 then n else n % 10;
    DigitOf(d);
    if n < 10 {
      assert IntText(n)[..0] == "";
    } else {
      NatText(n / 10);
      assert IntText(n) == IntText(n / 10) + ["0123456789"[n % 10]];
      assert IntText(n)[..|IntText(n)| - 1] == IntText(n / 10);
    }
  }

  lemma NegativeText(t: string)
    ensures SignedValue("-" + t) == -Value(t) && (NulFree(t) ==> NulFree("-" + t))
  {
    assert ("-" + t)[1..] == t && ("-" + t)[0] == '-';
  }

  lemma PositiveText(t: string)
    requires t != "" && t[0] != '-'
    ensures SignedValue(t) == Value(t)
  {
  }

  lemma MinusText(n: int)
    requires n > 0
    ensures IntText(-n) == "-" + IntText(n)
  {
  }

  lemma NegativeExpiry(n: int)
    requires n > 0
    ensures SignedValue(IntText(-n)) == -n && NulFree(IntText(-n))
  {
    NatText(n);
    var t := IntText(n);
    NegativeText(t);
    MinusText(n);
  }

  lemma PositiveExpiry(n: nat)
    ensures SignedValue(IntText(n)) == n && NulFree(IntText(n))
  {
    NatText(n);
    PositiveText(IntText(n));
  }

  lemma ExpiryText(n: int)
    ensures SignedValue(IntText(n)) == n && NulFree(IntText(n))
  {
    if n < 0 {
      NegativeExpiry(-n);
    } else {
      PositiveExpiry(n);
    }
  }

  lemma GrantDetermined(a: ApprovalGrant, b: ApprovalGrant)
    requires GrantClean(a) && Join(ApprovalFields(a)) == Join(ApprovalFields(b))
    ensures a == b.(attestation := a.attestation)
  {
    ExpiryText(a.expiresAt);
    ExpiryText(b.expiresAt);
    var x, y := ApprovalFields(a), ApprovalFields(b);
    assert forall i :: 0 <= i < |x| ==> NulFree(x[i]);
    JoinInjective(x, y);
    assert x[0] == y[0] && x[1] == y[1] && x[2] == y[2] && x[3] == y[3] && x[4] == y[4] && x[5] == y[5];
  }

  lemma ApprovedIsGranted(crypto: Crypto, granted: seq<ApprovalGrant>, e: Effect) returns (k: nat)
    requires Approved(crypto, e.gateway, e.request, e.now) && GrantsClean(granted) && NotForgedApproval(crypto, granted, e.gateway, e.request)
    ensures k < |granted| && Grants(crypto, granted[k], e)
  {
    var a := e.request.approval.value;
    JoinedIsJoin(a.authorityId, a.candidateId, a.actionFingerprint, a.policyVersion, a.nonce, IntText(a.expiresAt));
    k :| 0 <= k < |granted| && Join(ApprovalFields(granted[k])) == Join(ApprovalFields(a));
    GrantDetermined(granted[k], a);
  }

  lemma NewEffectGranted(crypto: Crypto, w: World, g: Gateway, r: CommitRequest, now: real)
    requires Outcome(crypto, g, w.claimed, r, now) == Committed && GrantsClean(w.granted) && NotForgedApproval(crypto, w.granted, g, r)
    ensures Risky(r.candidate) ==> exists k :: 0 <= k < |w.granted| && Grants(crypto, w.granted[k], Effect(g, r, now))
  {
    CommittedExactlyWhen(crypto, g, w.claimed, r, now);
    if Risky(r.candidate) {
      var k := ApprovedIsGranted(crypto, w.granted, Effect(g, r, now));
    }
  }

  lemma StepKeepsGranted(crypto: Crypto, w: World, e: Event)
    requires AllGranted(crypto, w) && GrantsClean(w.granted)
    requires e.Commit? ==> NotForgedApproval(crypto, w.granted, e.gateway, e.request)
    ensures AllGranted(crypto, Step(crypto, w, e))
  {
    var w' := Step(crypto, w, e);
    assert w.granted <= w'.granted;
    if e.Commit? && Outcome(crypto, e.gateway, w.claimed, e.request, e.now) == Committed {
      NewEffectGranted(crypto, w, e.gateway, e.request, e.now);
    }
    forall i | 0 <= i < |w'.effects|
      ensures Granted(crypto, w', i)
    {
      if i < |w.effects| {
        assert Granted(crypto, w, i) && w'.effects[i] == w.effects[i];
        KeepsGranted(crypto, w, w', i);
      }
    }
  }

  lemma KeepsGranted(crypto: Crypto, w: World, w': World, i: nat)
    requires i < |w.effects| && i < |w'.effects| && w'.effects[i] == w.effects[i] && w.granted <= w'.granted && Granted(crypto, w, i)
    ensures Granted(crypto, w', i)
  {
    if Risky(w.effects[i].request.candidate) {
      var k :| 0 <= k < |w.granted| && Grants(crypto, w.granted[k], w.effects[i]);
      assert w'.granted[k] == w.granted[k];
    }
  }

  /** In a run without forged approvals, where the authority signs only grants without NUL, every risky
      effect was granted: this action, policy version and nonce, with an expiry not passed. */
  lemma {:induction false} EveryRiskyEffectIsGranted(crypto: Crypto, events: seq<Event>)
    requires HonestApprovals(crypto, events) && GrantsClean(Run(crypto, events).granted)
    ensures AllGranted(crypto, Run(crypto, events))
  {
    if events != [] {
      var init, e := events[..|events| - 1], events[|events| - 1];
      assert Run(crypto, init).granted <= Run(crypto, events).granted;
      forall n | 0 <= n < |init| && init[n].Commit?
        ensures NotForgedApproval(crypto, Run(crypto, init[..n]).granted, init[n].gateway, init[n].request)
      {
        assert init[..n] == events[..n] && init[n] == events[n];
      }
      EveryRiskyEffectIsGranted(crypto, init);
      assert events[..|events| - 1] == init;
      StepKeepsGranted(crypto, Run(crypto, init), e);
    }
  }

  // ----- The check on grants cannot be left out

  /** A grant signed under the key. */
  function Grant(crypto: Crypto, key: string, c: ActionCandidate, authorityId: string, version: string, nonce: string): ApprovalGrant {
    ApprovalGrant(c.id, Fingerprint(crypto, c), version, authorityId, nonce, 0,
                  crypto.mac(key, Joined(authorityId, c.id, Fingerprint(crypto, c), version, nonce, IntText(0))))
  }

  /** A genuine acceptance. */
  function Acceptance(crypto: Crypto, key: string, c: ActionCandidate, verifierId: string, version: string): VerificationResult {
    VerificationResult(verifierId, c.id, Fingerprint(crypto, c), version, true, "",
                       crypto.mac(key, Joined(verifierId, c.id, Fingerprint(crypto, c), version, "1", "")))
  }

  /** The authority grants one action; another, genuinely verified, is committed with a grant that
      borrows the signature. */
  function BorrowedGrant(crypto: Crypto, key: string, granted: ActionCandidate, nonce: string, executed: ActionCandidate, presentedNonce: string): seq<Event> {
    var a := Grant(crypto, key, granted, DOT, DOT, nonce);
    var presented := Grant(crypto, key, executed, DOT, DOT, presentedNonce).(attestation := a.attestation);
    [Approval(a),
     Commit(Gateway({DOT}, key, key, DOT), CommitRequest(executed, Acceptance(crypto, key, executed, DOT, DOT), Some(presented)), 0.0)]
  }

  lemma BorrowedGrantExecutes(crypto: Crypto, key: string, granted: ActionCandidate, nonce: string, executed: ActionCandidate, presentedNonce: string)
    requires |key| >= 16 && Risky(executed) && granted.id != executed.id
    requires Joined(DOT, granted.id, Fingerprint(crypto, granted), DOT, nonce, IntText(0))
          == Joined(DOT, executed.id, Fingerprint(crypto, executed), DOT, presentedNonce, IntText(0))
    ensures var events := BorrowedGrant(crypto, key, granted, nonce, executed, presentedNonce);
            HonestApprovals(crypto, events) && !AllGranted(crypto, Run(crypto, events))
  {
    var events := BorrowedGrant(crypto, key, granted, nonce, executed, presentedNonce);
    var a, g, r := events[0].grant, events[1].gateway, events[1].request;
    var presented := r.approval.value;
    FirstStep(crypto, events);
    var w := World([], [a], {}, []);
    assert Step(crypto, START, events[0]) == w;
    JoinedIsJoin(a.authorityId, a.candidateId, a.actionFingerprint, a.policyVersion, a.nonce, IntText(0));
    JoinedIsJoin(DOT, executed.id, Fingerprint(crypto, executed), DOT, presentedNonce, IntText(0));
    assert Authorised(crypto, g, r, 0.0);
    CommittedExactlyWhen(crypto, g, {}, r, 0.0);
    assert NotForgedApproval(crypto, [a], g, r) by {
      assert Join(ApprovalFields([a][0])) == Join(ApprovalFields(presented));
    }
    var after := Run(crypto, events);
    assert after.effects == [Effect(g, r, 0.0)] && after.granted == [a];
    assert !Granted(crypto, after, 0);
  }

  /** Every grant that a run without forged approvals relies on is for the action executed, if and only
      if the authority refuses to sign a grant with a NUL in its fields. */
  lemma GrantCheckIsNeeded(crypto: Crypto, check: bool)
    ensures (forall events: seq<Event> ::
               HonestApprovals(crypto, events) && (check ==> GrantsClean(Run(crypto, events).granted)) ==> AllGranted(crypto, Run(crypto, events)))
       <==> check
  {
    if check {
      forall events: seq<Event> | HonestApprovals(crypto, events) && GrantsClean(Run(crypto, events).granted)
        ensures AllGranted(crypto, Run(crypto, events))
      {
        EveryRiskyEffectIsGranted(crypto, events);
      }
    } else {
      var executed := PLAIN.(riskClass := Destructive);
      var granted := executed.(id := executed.id + [NUL] + (Fingerprint(crypto, executed) + [NUL] + (DOT + [NUL] + DOT)));
      var tail := Fingerprint(crypto, granted) + [NUL] + (DOT + [NUL] + DOT);
      MoveGrant(executed.id, Fingerprint(crypto, executed), DOT, DOT, tail, IntText(0));
      assert Joined(DOT, granted.id, Fingerprint(crypto, granted), DOT, DOT, IntText(0))
          == DOT + [NUL] + (granted.id + [NUL] + (Fingerprint(crypto, granted) + [NUL] + (DOT + [NUL] + (DOT + [NUL] + IntText(0)))));
      Regrouped(Fingerprint(crypto, granted), DOT, DOT, IntText(0));
      assert |granted.id| != |executed.id|;
      BorrowedGrantExecutes(crypto, KEY, granted, DOT, executed, DOT + [NUL] + tail);
      assert HonestApprovals(crypto, BorrowedGrant(crypto, KEY, granted, DOT, executed, DOT + [NUL] + tail));
    }
  }

  lemma Regrouped(a: string, b: string, c: string, d: string)
    ensures a + [NUL] + (b + [NUL] + (c + [NUL] + d)) == (a + [NUL] + (b + [NUL] + c)) + [NUL] + d
  {
  }

  lemma MoveGrant(a: string, b: string, c: string, d: string, tail: string, f: string)
    ensures (a + [NUL] + (b + [NUL] + (c + [NUL] + d))) + [NUL] + (tail + [NUL] + f)
         == a + [NUL] + (b + [NUL] + (c + [NUL] + ((d + [NUL] + tail) + [NUL] + f)))
  {
  }
}
