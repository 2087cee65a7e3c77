/** The decision trace (c3r/telemetry/trace.py) and the redaction schema that a governed
    store admits (c3r/telemetry/governed_store.py:51-89). */
module Trace {
  import opened Schema

  datatype OutcomeValue = Word(text: string) | Flag(on: bool) | Amount(value: Number)

  datatype DecisionTrace = DecisionTrace(
    runId: string,
    stateHash: string,
    accessLevel: string,
    modelProvider: string,
    candidateIds: seq<string>,
    probabilities: map<string, seq<Number>>,
    utilityQuantiles: map<string, Number>,
    selectedActionId: Option<string>,
    authorityResult: string,
    systemCost: map<string, Number>,
    taskOutcome: map<string, OutcomeValue>,
    artifactRefs: seq<string>)

  predicate TokenChar(c: char) {
    'A' <= c <= 'Z' || 'a' <= c <= 'z' || '0' <= c <= '9' || c in "_.:-"
  }

  predicate Token(s: string) {
    1 <= |s| <= 128 && forall i :: 0 <= i < |s| ==> TokenChar(s[i])
  }

  predicate HexHash(s: string) {
    |s| == 64 && forall i :: 0 <= i < 64 ==> '0' <= s[i] <= '9' || 'a' <= s[i] <= 'f'
  }

  predicate Probability(n: Number) {
    n.Finite? && 0.0 <= n.value <= 1.0
  }

  predicate OutcomeAllowed(v: OutcomeValue) {
    match v
    case Word(text) => Token(text)
    case Flag(_) => true
    case Amount(n) => n.Finite?
  }

  /** `_validate_trace` returns instead of raising. */
  predicate PassesRedaction(t: DecisionTrace) {
    && HexHash(t.stateHash)
    && Token(t.runId) && Token(t.accessLevel) && Token(t.modelProvider) && Token(t.authorityResult)
    && (forall i :: 0 <= i < |t.candidateIds| ==> Token(t.candidateIds[i]))
    && (t.selectedActionId.Some? ==> Token(t.selectedActionId.value))
    && t.artifactRefs == []
    && (forall key :: key in t.probabilities ==>
          Token(key) && t.probabilities[key] != [] &&
          forall i :: 0 <= i < |t.probabilities[key]| ==> Probability(t.probabilities[key][i]))
    && (forall key :: key in t.utilityQuantiles ==> Token(key) && t.utilityQuantiles[key].Finite?)
    && (forall key :: key in t.systemCost ==> Token(key) && t.systemCost[key].Finite? && t.systemCost[key].value >= 0.0)
    && (forall key :: key in t.taskOutcome ==> Token(key) && OutcomeAllowed(t.taskOutcome[key]))
  }
}
