/** Attestation (c3r/authority.py) and independent verification (c3r/verifier_firewall.py). The
    hash and the MAC are arbitrary functions; a MAC covers its fields joined by NUL. */
module Authority {
  import opened Schema
  import opened Ranking

  /** What `action_fingerprint` hashes: the action with its payload sorted. */
  datatype Canonical = Canonical(
    family: ActionFamily, id: string, optimisticUtility: real,
    payload: seq<(string, string)>, requestedVerifier: Option<string>, riskClass: RiskClass)

  predicate PairLess(a: (string, string), b: (string, string)) {
    StringLess(a.0, b.0) || (a.0 == b.0 && StringLess(a.1, b.1))
  }

  function CanonicalForm(c: ActionCandidate): Canonical {
    Canonical(c.family, c.id, c.optimisticUtility, Sort(c.payload, PairLess), c.requestedVerifier, c.riskClass)
  }

  datatype Crypto = Crypto(digest: Canonical -> string, mac: (string, string) -> string)

  function Fingerprint(crypto: Crypto, c: ActionCandidate): string {
    crypto.digest(CanonicalForm(c))
  }

  /** Two actions with one fingerprint differ at most in the order of their payload, unless their
      canonical forms collide under the hash. */
  lemma SameFingerprintSameAction(crypto: Crypto, a: ActionCandidate, b: ActionCandidate)
    requires Fingerprint(crypto, a) == Fingerprint(crypto, b)
    ensures (CanonicalForm(a) != CanonicalForm(b) && crypto.digest(CanonicalForm(a)) == crypto.digest(CanonicalForm(b)))
         || (multiset(a.payload) == multiset(b.payload) && a == b.(payload := a.payload))
  {
    SortKeeps(a.payload, PairLess);
    SortKeeps(b.payload, PairLess);
  }

  lemma PairLessIsStrict()
    ensures StrictOrder(PairLess) && forall x, y :: x != y ==> PairLess(x, y) || PairLess(y, x)
  {
    forall x: (string, string), y: (string, string)
      ensures PairLess(x, y) ==> !PairLess(y, x)
      ensures x != y ==> PairLess(x, y) || PairLess(y, x)
    {
      StringLessTotal(x.0, y.0);
      StringLessTotal(x.1, y.1);
    }
    forall x, y, z | PairLess(x, y) && PairLess(y, z)
      ensures PairLess(x, z)
    {
      PairLessTransitive(x, y, z);
    }
    forall x, y, z | PairLess(x, z)
      ensures PairLess(x, y) || PairLess(y, z)
    {
      if !PairLess(x, y) && x != y {
        PairLessTransitive(y, x, z);
      }
    }
  }

  lemma PairLessTransitive(x: (string, string), y: (string, string), z: (string, string))
    requires PairLess(x, y) && PairLess(y, z)
    ensures PairLess(x, z)
  {
    StringLessTotal(x.0, y.0);
    StringLessTotal(y.0, z.0);
    if x.0 != y.0 && y.0 != z.0 {
      StringLessTransitive(x.0, y.0, z.0);
    } else if x.0 == y.0 && y.0 == z.0 {
      StringLessTransitive(x.1, y.1, z.1);
    }
  }

  /** The canonical form forgets the order of the payload and nothing else. */
  lemma CanonicalFormsEqual(a: ActionCandidate, b: ActionCandidate)
    ensures CanonicalForm(a) == CanonicalForm(b)
       <==> multiset(a.payload) == multiset(b.payload) && a == b.(payload := a.payload)
  {
    SortKeeps(a.payload, PairLess);
    SortKeeps(b.payload, PairLess);
    if multiset(a.payload) == multiset(b.payload) && a == b.(payload := a.payload) {
      PairLessIsStrict();
      SortForgetsOrder(a.payload, b.payload, PairLess);
    }
  }

  /** Two actions that differ only in the order of their payload share a fingerprint; and with a
      hash that does not collide on the two, no others do. */
  lemma FingerprintForgetsPayloadOrder(crypto: Crypto, a: ActionCandidate, b: ActionCandidate)
    ensures multiset(a.payload) == multiset(b.payload) && a == b.(payload := a.payload) ==> Fingerprint(crypto, a) == Fingerprint(crypto, b)
    ensures (crypto.digest(CanonicalForm(a)) == crypto.digest(CanonicalForm(b)) ==> CanonicalForm(a) == CanonicalForm(b)) ==>
              (Fingerprint(crypto, a) == Fingerprint(crypto, b)
               <==> multiset(a.payload) == multiset(b.payload) && a == b.(payload := a.payload))
  {
    CanonicalFormsEqual(a, b);
  }

  // ----- Fields joined by NUL

  const NUL: char := '\0'

  function Join(fields: seq<string>): string {
    if fields == [] then "" else if |fields| == 1 then fields[0] else fields[0] + [NUL] + Join(fields[1..])
  }

  predicate NulFree(s: string) { forall i :: 0 <= i < |s| ==> s[i] != NUL }

  function Nuls(s: string): nat {
    if s == "" then 0 else (if s[0] == NUL then 1 else 0) + Nuls(s[1..])
  }

  lemma {:induction false} NulsConcat(a: string, b: string)
    ensures Nuls(a + b) == Nuls(a) + Nuls(b)
  {
    if a == "" {
      assert a + b == b;
    } else {
      NulsConcat(a[1..], b);
      assert (a + b)[1..] == a[1..] + b;
    }
  }

  lemma {:induction false} NulsOfNulFree(s: string)
    ensures Nuls(s) == 0 <==> NulFree(s)
  {
    if s != "" {
      NulsOfNulFree(s[1..]);
      assert NulFree(s) ==> NulFree(s[1..]);
      assert s == [s[0]] + s[1..];
    }
  }

  lemma {:induction false} NulsOfJoin(fields: seq<string>)
    requires fields != []
    ensures Nuls(Join(fields)) >= |fields| - 1
    ensures Nuls(Join(fields)) == |fields| - 1 <==> forall i :: 0 <= i < |fields| ==> NulFree(fields[i])
  {
    if |fields| == 1 {
      NulsOfNulFree(fields[0]);
    } else {
      NulsOfJoin(fields[1..]);
      NulsOfNulFree(fields[0]);
      NulsConcat(fields[0] + [NUL], Join(fields[1..]));
      NulsConcat(fields[0], [NUL]);
      assert [NUL][1..] == "";
      assert Nuls([NUL]) == 1;
      if forall i :: 0 <= i < |fields[1..]| ==> NulFree(fields[1..][i]) {
        assert forall i :: 1 <= i < |fields| ==> fields[i] == fields[1..][i - 1];
      }
      if forall i :: 0 <= i < |fields| ==> NulFree(fields[i]) {
        assert forall i :: 0 <= i < |fields[1..]| ==> fields[1..][i] == fields[i + 1];
      }
    }
  }

  lemma FirstFieldFixed(a: string, b: string, x: string, y: string)
    requires NulFree(a) && NulFree(b) && a + [NUL] + x == b + [NUL] + y
    ensures a == b && x == y
  {
    var s, t := a + [NUL] + x, b + [NUL] + y;
    assert s[|a|] == NUL && t[|b|] == NUL;
    assert (forall i :: 0 <= i < |a| ==> s[i] == a[i]) && (forall i :: 0 <= i < |b| ==> t[i] == b[i]);
    assert |a| == |b|;
    assert a == s[..|a|] && b == t[..|b|];
    assert x == s[|a| + 1..] && y == t[|b| + 1..];
  }

  lemma {:induction false} JoinInjectiveClean(a: seq<string>, b: seq<string>)
    requires |a| == |b| && Join(a) == Join(b)
    requires forall i :: 0 <= i < |a| ==> NulFree(a[i]) && NulFree(b[i])
    ensures a == b
  {
    if |a| == 1 {
      assert a == [a[0]] && b == [b[0]];
    } else if |a| > 1 {
      FirstFieldFixed(a[0], b[0], Join(a[1..]), Join(b[1..]));
      JoinInjectiveClean(a[1..], b[1..]);
      assert a == [a[0]] + a[1..] && b == [b[0]] + b[1..];
    }
  }

  /** As many fields joined to the same payload are the same fields, as soon as one side holds no
      NUL: the other then cannot hold one either. */
  lemma JoinInjective(a: seq<string>, b: seq<string>)
    requires |a| == |b| > 0 && Join(a) == Join(b) && forall i :: 0 <= i < |a| ==> NulFree(a[i])
    ensures a == b
  {
    NulsOfJoin(a);
    NulsOfJoin(b);
    JoinInjectiveClean(a, b);
  }

  lemma SplitAtNul(s: string) returns (x: string, y: string)
    requires !NulFree(s)
    ensures s == x + [NUL] + y
  {
    var i :| 0 <= i < |s| && s[i] == NUL;
    x, y := s[..i], s[i + 1..];
  }

  lemma JoinUnfolds(first: string, rest: seq<string>)
    requires rest != []
    ensures Join([first] + rest) == first + [NUL] + Join(rest)
  {
    assert ([first] + rest)[1..] == rest;
  }

  /** Moving the part of a field after its NUL into the next field leaves the joined text alone. */
  lemma ShiftRight(x: string, y: string, next: string, rest: seq<string>)
    ensures Join([x + [NUL] + y, next] + rest) == Join([x, y + [NUL] + next] + rest)
  {
    assert [x + [NUL] + y, next] + rest == [x + [NUL] + y] + ([next] + rest);
    assert [x, y + [NUL] + next] + rest == [x] + ([y + [NUL] + next] + rest);
    JoinUnfolds(x + [NUL] + y, [next] + rest);
    JoinUnfolds(x, [y + [NUL] + next] + rest);
    if rest != [] {
      JoinUnfolds(next, rest);
      JoinUnfolds(y + [NUL] + next, rest);
    } else {
      assert [next] + rest == [next] && [y + [NUL] + next] + rest == [y + [NUL] + next];
    }
  }

  /** Other fields, as many, with the same joined text. */
  lemma {:induction false} OtherFields(a: seq<string>) returns (b: seq<string>)
    requires |a| >= 2 && exists i :: 0 <= i < |a| && !NulFree(a[i])
    ensures |b| == |a| && Join(b) == Join(a) && b != a
  {
    if !NulFree(a[0]) {
      var x, y := SplitAtNul(a[0]);
      ShiftRight(x, y, a[1], a[2..]);
      b := [x, y + [NUL] + a[1]] + a[2..];
      assert a == [x + [NUL] + y, a[1]] + a[2..] && b[0] != a[0];
    } else if |a| == 2 {
      var x, y := SplitAtNul(a[1]);
      ShiftRight(a[0], x, y, []);
      b := [a[0] + [NUL] + x, y];
      assert b == b + [] && a == [a[0], x + [NUL] + y] + [] && b[0] != a[0];
    } else {
      var i :| 0 <= i < |a| && !NulFree(a[i]);
      assert a[1..][i - 1] == a[i];
      var rest := OtherFields(a[1..]);
      b := [a[0]] + rest;
      JoinUnfolds(a[0], rest);
      JoinUnfolds(a[0], a[1..]);
      assert a == [a[0]] + a[1..] && b[1..] == rest;
    }
  }

  /** The joined text determines two or more fields, given how many there are, exactly when none
      of them holds a NUL. */
  lemma JoinDetermines(a: seq<string>)
    requires |a| >= 2
    ensures (forall b: seq<string> :: |b| == |a| && Join(b) == Join(a) ==> b == a)
       <==> (forall i :: 0 <= i < |a| ==> NulFree(a[i]))
  {
    if forall i :: 0 <= i < |a| ==> NulFree(a[i]) {
      forall b: seq<string> | |b| == |a| && Join(b) == Join(a)
        ensures b == a
      {
        JoinInjective(a, b);
      }
    } else {
      var b := OtherFields(a);
      assert |b| == |a| && Join(b) == Join(a) && b != a;
    }
  }

  const MINIMUM_KEY_LENGTH := 16

  // ----- The firewall

  datatype VerificationResult = VerificationResult(
    verifierId: string, candidateId: string, actionFingerprint: string,
    policyVersion: string, accepted: bool, evidence: string, attestation: string)

  /** The fields an attestation of a verification covers. */
  function VerificationFields(v: VerificationResult): seq<string> {
    [v.verifierId, v.candidateId, v.actionFingerprint, v.policyVersion, if v.accepted then "1" else "0", v.evidence]
  }

  datatype Opinion = Opinion(accepted: bool, evidence: string) | VerifierRaises

  datatype Firewall = Firewall(
    verifiers: map<string, ActionCandidate -> Opinion>,
    defaultVerifier: string,
    byRisk: map<RiskClass, string>,
    version: string,
    attestationKey: string)

  /** `VerifierPolicy.select`: the host's policy, never the candidate, names the verifier. */
  function PolicyVerifier(fw: Firewall, c: ActionCandidate): string {
    if c.riskClass in fw.byRisk then fw.byRisk[c.riskClass] else fw.defaultVerifier
  }

  /** `VerifierFirewall.verify`; `None` is a raised error. */
  function VerifyAction(crypto: Crypto, fw: Firewall, c: ActionCandidate): Option<VerificationResult> {
    var verifierId := PolicyVerifier(fw, c);
    if verifierId !in fw.verifiers then None
    else
      match fw.verifiers[verifierId](c)
      case VerifierRaises => None
      case Opinion(accepted, evidence) =>
        if |fw.attestationKey| < MINIMUM_KEY_LENGTH then None
        else
          var unsigned := VerificationResult(verifierId, c.id, Fingerprint(crypto, c), fw.version, accepted, evidence, "");
          Some(unsigned.(attestation := crypto.mac(fw.attestationKey, Join(VerificationFields(unsigned)))))
  }

  /** The verifier that the policy names accepted this very candidate. */
  predicate PolicyAccepts(fw: Firewall, c: ActionCandidate) {
    var id := PolicyVerifier(fw, c);
    id in fw.verifiers && fw.verifiers[id](c).Opinion? && fw.verifiers[id](c).accepted
  }
}
