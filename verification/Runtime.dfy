/** The decision path of one run (c3r/runtime.py): compile the catalogue, consult the fast path,
    select conservatively, verify independently, and finish with exactly one trace. The answers of
    the state compiler, the fast path and the deliberators are inputs; an error that the code
    catches is one of their answers. */
module Runtime {
  import opened Schema
  import opened Trace
  import opened Authority
  import Compiler = CandidateCompiler
  import Laws = CompilerLaws
  import Cvoc

  datatype CompiledState = CompiledState(families: seq<ActionFamily>, budget: map<string, real>)

  datatype StateOutcome = NoState(status: string) | HasState(state: CompiledState)

  /** The answer of the fast path; `FastRaised` is a caught error. */
  datatype FastAnswer =
    | FastRaised
    | Fast(abstained: bool, answers: map<string, string>, probabilities: map<string, seq<Number>>,
           candidateProbabilities: seq<Number>, modelId: string)

  /** The answer of a deliberator: an error, a plain value, or a provider result with its costs. */
  datatype DeliberatorAnswer =
    | DeliberatorRaised
    | PlainResult
    | ProviderResult(cost: map<string, Number>, providerId: string)

  datatype Controller = Controller(
    enabled: bool,
    systemOneEnabled: bool,
    systemOneProvider: string,
    deliberativeEnabled: bool,
    perFamilyCap: nat,
    multiplier: real,
    firewall: Firewall,
    crypto: Crypto,
    fastPathProvider: Option<string>,      // the provider of the configured fast path, if there is one
    deliberator: Option<DeliberatorAnswer>) // what the configured deliberator would answer

  datatype RuntimeRequest = RuntimeRequest(
    definitions: seq<ActionDefinition>,
    policy: AuthorityPolicy,
    estimates: map<string, ValueEstimate>,
    runId: string,
    stateHash: string,
    accessLevel: string,
    requestedTextGeneration: bool)

  datatype Route = Deterministic | SystemOne | Deliberative | Recommendation

  function RouteText(r: Route): string {
    match r
    case Deterministic => "deterministic"
    case SystemOne => "system_one"
    case Deliberative => "deliberative"
    case Recommendation => "recommendation"
  }

  datatype Which = Configured | Requested

  /** The calls a run makes to verifiers and deliberators, in order. */
  datatype Call = Verified(candidate: ActionCandidate, accepted: bool) | Deliberated(which: Which)

  datatype Outcome = Outcome(
    route: Route,
    reason: string,
    selected: Option<ActionCandidate>,
    authorityResult: string,
    candidateIds: seq<string>,
    lowerBound: Option<Cvoc.Bound>,
    trace: DecisionTrace,
    calls: seq<Call>)

  // ----- finish

  function Probabilities(fast: Option<FastAnswer>): map<string, seq<Number>> {
    match fast
    case Some(Fast(_, _, probabilities, ranks, _)) =>
      if ranks != [] then probabilities["CANDIDATE_RANK" := ranks] else probabilities
    case _ => map[]
  }

  function ModelProvider(route: Route, fast: Option<FastAnswer>, providerId: string): string {
    if providerId != "" then providerId
    else match fast case Some(Fast(_, _, _, _, modelId)) => modelId case _ => RouteText(route)
  }

  function BoundNumber(b: Cvoc.Bound): Number {
    match b case NegativeInfinity => NotFinite case Fin(v) => Finite(v)
  }

  /** What a finish call varies besides route and reason. */
  datatype Detail = Detail(
    selected: Option<ActionCandidate>, candidateIds: seq<string>, lowerBound: Option<Cvoc.Bound>,
    authorityResult: string, fast: Option<FastAnswer>, cost: map<string, Number>, providerId: string)

  const BARE: Detail := Detail(None, [], None, "not_attempted", None, map[], "")

  function Finished(q: RuntimeRequest, route: Route, reason: string, d: Detail, calls: seq<Call>): Outcome {
    var selectedId := if d.selected.Some? then Some(d.selected.value.id) else None;
    Outcome(route, reason, d.selected, d.authorityResult, d.candidateIds, d.lowerBound,
            DecisionTrace(q.runId, q.stateHash, q.accessLevel, ModelProvider(route, d.fast, d.providerId), d.candidateIds,
                          Probabilities(d.fast),
                          if d.lowerBound.Some? then map["selected_lower_bound" := BoundNumber(d.lowerBound.value)] else map[],
                          selectedId, d.authorityResult, d.cost, map["status" := Word(reason)], []),
            calls)
  }

  predicate InvalidCost(cost: map<string, Number>) {
    exists key :: key in cost && (cost[key].NotFinite? || cost[key].value < 0.0)
  }

  /** `_deliberate_or_stop`; `requested` is the caller's deliberator where it is allowed. */
  function DeliberatedOrStopped(k: Controller, q: RuntimeRequest, reason: string, d: Detail,
                            requested: Option<DeliberatorAnswer>, calls: seq<Call>): Outcome {
    var which, answer := if requested.Some? then Requested else Configured, if requested.Some? then requested else k.deliberator;
    if !k.deliberativeEnabled || answer.None? then Finished(q, Deterministic, reason + "_NO_PROVIDER", d, calls)
    else
      var after := calls + [Deliberated(which)];
      match answer.value
      case DeliberatorRaised => Finished(q, Deterministic, "DELIBERATIVE_FAILURE", d, after)
      case PlainResult => Finished(q, Deliberative, reason, d, after)
      case ProviderResult(cost, providerId) =>
        if InvalidCost(cost) then Finished(q, Deterministic, "DELIBERATIVE_INVALID_COST", d, after)
        else Finished(q, Deliberative, reason, d.(cost := cost, providerId := providerId), after)
  }

  // ----- run

  function InFamilies(defs: seq<ActionDefinition>, families: seq<ActionFamily>): seq<ActionDefinition> {
    if defs == [] then []
    else
      InFamilies(defs[..|defs| - 1], families)
      + if defs[|defs| - 1].family in families then [defs[|defs| - 1]] else []
  }

  function RemainingBudget(s: CompiledState): real {
    if "remaining_usd" in s.budget then s.budget["remaining_usd"] else 0.0
  }

  /** The compilation request a run makes: default widths, margin and utility floor. */
  function CompileRequest(k: Controller, q: RuntimeRequest, s: CompiledState): Compiler.Request {
    Compiler.Request(q.policy, RemainingBudget(s), k.firewall.verifiers.Keys, None, 1, None, 0.05, 0.0)
  }

  function Catalogue(q: RuntimeRequest, s: CompiledState): seq<ActionDefinition> {
    InFamilies(q.definitions, s.families)
  }

  function Candidates(k: Controller, q: RuntimeRequest, s: CompiledState): seq<ActionCandidate> {
    Compiler.Compiled(Catalogue(q, s), k.perFamilyCap, CompileRequest(k, q, s)).candidates
  }

  function Ids(candidates: seq<ActionCandidate>): seq<string> {
    if candidates == [] then [] else Ids(candidates[..|candidates| - 1]) + [candidates[|candidates| - 1].id]
  }

  /** The first read-only DELIBERATE candidate. */
  function TextFallback(candidates: seq<ActionCandidate>): Option<ActionCandidate> {
    if candidates == [] then None
    else if candidates[0].family == Deliberate && candidates[0].riskClass == ReadOnly then Some(candidates[0])
    else TextFallback(candidates[1..])
  }

  /** Nothing has a positive bound: a caller that asked for text may still get it, from a verified
      DELIBERATE candidate. */
  function WithoutChoice(k: Controller, q: RuntimeRequest, candidates: seq<ActionCandidate>, fast: Option<FastAnswer>,
                         requested: Option<DeliberatorAnswer>): Outcome {
    var plain := BARE.(candidateIds := Ids(candidates));
    var fallback := if q.requestedTextGeneration && requested.Some? then TextFallback(candidates) else None;
    if fallback.None? then Finished(q, Deterministic, "NON_POSITIVE_CVOC", plain.(fast := fast), [])
    else
      var v := VerifyAction(k.crypto, k.firewall, fallback.value);
      if v.None? then Finished(q, Deterministic, "VERIFIER_FAILURE", plain, [])
      else
        var calls := [Verified(fallback.value, v.value.accepted)];
        if v.value.accepted then DeliberatedOrStopped(k, q, "REQUESTED_TEXT_POLICY_FALLBACK", plain.(fast := fast), requested, calls)
        else Finished(q, Deterministic, "VERIFICATION_REJECTED", plain, calls)
  }

  /** An action was chosen: verify it, then recommend it, deliberate, or decline. */
  function WithChoice(k: Controller, q: RuntimeRequest, detail: Detail, selected: ActionCandidate, lowerBound: Cvoc.Bound,
                      requested: Option<DeliberatorAnswer>): Outcome {
    var v := VerifyAction(k.crypto, k.firewall, selected);
    if v.None? then Finished(q, Deterministic, "VERIFIER_FAILURE", detail, [])
    else
      var calls := [Verified(selected, v.value.accepted)];
      if !v.value.accepted then Finished(q, Deterministic, "VERIFICATION_REJECTED", detail, calls)
      else if selected.family == Deliberate then
        DeliberatedOrStopped(k, q, "CVOC_SELECTED_DELIBERATION", detail, if q.requestedTextGeneration then requested else None, calls)
      else if selected.riskClass != ReadOnly then
        Finished(q, Deterministic, "EFFECT_EXECUTION_UNAVAILABLE", detail.(lowerBound := Some(lowerBound)), calls)
      else
        Finished(q, Recommendation, "VERIFIED_RECOMMENDATION",
               detail.(selected := Some(selected), lowerBound := Some(lowerBound), authorityResult := "verified_not_committed"), calls)
  }

  /** The choice a run makes once nothing stopped it. */
  function Choice(k: Controller, q: RuntimeRequest, s: CompiledState): Cvoc.Decision {
    Cvoc.Select(k.multiplier, Candidates(k, q, s), q.estimates)
  }

  /** The part of `run` after the fast path let it through. */
  function SelectedAndVerified(k: Controller, q: RuntimeRequest, candidates: seq<ActionCandidate>, fast: Option<FastAnswer>,
                               requested: Option<DeliberatorAnswer>): Outcome {
    var decision := Cvoc.Select(k.multiplier, candidates, q.estimates);
    if decision.selected.None? then WithoutChoice(k, q, candidates, fast, requested)
    else WithChoice(k, q, BARE.(candidateIds := Ids(candidates), fast := fast), decision.selected.value, decision.lowerBound, requested)
  }

  predicate Answers(fast: FastAnswer, question: string) {
    fast.Fast? && question in fast.answers && fast.answers[question] == "YES"
  }

  /** Either the run ends before selection, or it goes on with what the fast path contributed. */
  datatype Gate = Ends(outcome: Outcome) | Passes(fast: Option<FastAnswer>)

  function FastGate(k: Controller, q: RuntimeRequest, plain: Detail, fast: FastAnswer): Gate {
    if !k.systemOneEnabled then Passes(None)
    else if k.fastPathProvider.None? then Ends(Finished(q, Deterministic, "SYSTEM_ONE_UNAVAILABLE", plain, []))
    else if k.fastPathProvider.value != k.systemOneProvider then Ends(Finished(q, Deterministic, "SYSTEM_ONE_PROVIDER_MISMATCH", plain, []))
    else if fast.FastRaised? then
      if q.requestedTextGeneration then Passes(None)
      else Ends(DeliberatedOrStopped(k, q, "SYSTEM_ONE_FAILURE", plain, None, []))
    else
      var detail := plain.(fast := Some(fast));
      if fast.abstained then Ends(DeliberatedOrStopped(k, q, "SYSTEM_ONE_ABSTAINED", detail, None, []))
      else if Answers(fast, "STOP_NOW") then Ends(Finished(q, SystemOne, "STOP_NOW", detail, []))
      else if Answers(fast, "DELIBERATION_REQUIRED") then Ends(DeliberatedOrStopped(k, q, "DELIBERATION_REQUIRED", detail, None, []))
      else Passes(Some(fast))
  }

  function CompiledGate(k: Controller, q: RuntimeRequest, candidates: seq<ActionCandidate>, fast: FastAnswer): Gate {
    var plain := BARE.(candidateIds := Ids(candidates));
    if candidates == [] then Ends(Finished(q, Deterministic, "NO_SAFE_ACTION", plain, []))
    else FastGate(k, q, plain, fast)
  }

  function EntryGate(k: Controller, q: RuntimeRequest, state: StateOutcome, fast: FastAnswer): (g: Gate)
    ensures g.Passes? ==> k.enabled && state.HasState? && RemainingBudget(state.state) >= 0.0
  {
    if !k.enabled then Ends(Finished(q, Deterministic, "C3R_DISABLED", BARE, []))
    else if state.NoState? then Ends(Finished(q, Deterministic, state.status, BARE, []))
    else if RemainingBudget(state.state) < 0.0 then Ends(Finished(q, Deterministic, "INVALID_BUDGET", BARE, []))
    else
      CompiledGate(k, q, Candidates(k, q, state.state), fast)
  }

  /** `StandaloneController.run` once the run id is known to be nonempty. */
  function RunSpec(k: Controller, q: RuntimeRequest, state: StateOutcome, fast: FastAnswer, requested: Option<DeliberatorAnswer>): Outcome {
    match EntryGate(k, q, state, fast)
    case Ends(outcome) => outcome
    case Passes(passed) => SelectedAndVerified(k, q, Candidates(k, q, state.state), passed, requested)
  }

  /** The trace sink and the controller in front of it. */
  class StandaloneController {
    const controller: Controller
    var traces: seq<DecisionTrace>

    constructor (controller: Controller)
      ensures this.controller == controller && traces == []
    {
      this.controller := controller;
      traces := [];
    }

    /** `finish`: builds the outcome and appends its trace; no other member touches the sink. */
    method Finish(q: RuntimeRequest, route: Route, reason: string, d: Detail, calls: seq<Call>) returns (outcome: Outcome)
      modifies this
      ensures outcome == Finished(q, route, reason, d, calls)
      ensures traces == old(traces) + [outcome.trace]
    {
      var probabilities: map<string, seq<Number>> := map[];
      if d.fast.Some? && d.fast.value.Fast? {
        probabilities := d.fast.value.probabilities;
        if d.fast.value.candidateProbabilities != [] {
          probabilities := probabilities["CANDIDATE_RANK" := d.fast.value.candidateProbabilities];
        }
      }
      var quantiles: map<string, Number> := map[];
      if d.lowerBound.Some? {
        quantiles := map["selected_lower_bound" := BoundNumber(d.lowerBound.value)];
      }
      var selectedId := if d.selected.Some? then Some(d.selected.value.id) else None;
      var trace := DecisionTrace(q.runId, q.stateHash, q.accessLevel, ModelProvider(route, d.fast, d.providerId), d.candidateIds,
                                 probabilities, quantiles, selectedId, d.authorityResult, d.cost, map["status" := Word(reason)], []);
      traces := traces + [trace];
      return Outcome(route, reason, d.selected, d.authorityResult, d.candidateIds, d.lowerBound, trace, calls);
    }

    /** `_deliberate_or_stop`. */
    method DeliberateOrStop(q: RuntimeRequest, reason: string, d: Detail, requested: Option<DeliberatorAnswer>, calls: seq<Call>)
      returns (outcome: Outcome)
      modifies this
      ensures outcome == DeliberatedOrStopped(controller, q, reason, d, requested, calls)
      ensures traces == old(traces) + [outcome.trace]
    {
      var which, answer := Requested, requested;
      if requested.None? {
        which, answer := Configured, controller.deliberator;
      }
      if !controller.deliberativeEnabled || answer.None? {
        outcome := Finish(q, Deterministic, reason + "_NO_PROVIDER", d, calls);
        return;
      }
      var after := calls + [Deliberated(which)];
      if answer.value.DeliberatorRaised? {
        outcome := Finish(q, Deterministic, "DELIBERATIVE_FAILURE", d, after);
        return;
      }
      if answer.value.ProviderResult? {
        if InvalidCost(answer.value.cost) {
          outcome := Finish(q, Deterministic, "DELIBERATIVE_INVALID_COST", d, after);
          return;
        }
        outcome := Finish(q, Deliberative, reason, d.(cost := answer.value.cost, providerId := answer.value.providerId), after);
        return;
      }
      outcome := Finish(q, Deliberative, reason, d, after);
    }

    /** `run` from the conservative selection on. */
    method SelectAndVerify(q: RuntimeRequest, candidates: seq<ActionCandidate>, fast: Option<FastAnswer>, requested: Option<DeliberatorAnswer>)
      returns (outcome: Outcome)
      modifies this
      ensures outcome == SelectedAndVerified(controller, q, candidates, fast, requested)
      ensures traces == old(traces) + [outcome.trace]
    {
      var plain := BARE.(candidateIds := Ids(candidates));
      var decision := Cvoc.Select(controller.multiplier, candidates, q.estimates);
      if decision.selected.None? {
        if q.requestedTextGeneration && requested.Some? {
          var fallback := FindFallback(candidates);
          if fallback.Some? {
            var verification := VerifyAction(controller.crypto, controller.firewall, fallback.value);
            if verification.None? {
              outcome := Finish(q, Deterministic, "VERIFIER_FAILURE", plain, []);
              return;
            }
            if verification.value.accepted {
              outcome := DeliberateOrStop(q, "REQUESTED_TEXT_POLICY_FALLBACK", plain.(fast := fast), requested,
                                          [Verified(fallback.value, true)]);
              return;
            }
            outcome := Finish(q, Deterministic, "VERIFICATION_REJECTED", plain, [Verified(fallback.value, false)]);
            return;
          }
        }
        outcome := Finish(q, Deterministic, "NON_POSITIVE_CVOC", plain.(fast := fast), []);
        return;
      }
      outcome := VerifyChoice(q, plain.(fast := fast), decision.selected.value, decision.lowerBound, requested);
    }

    /** `run` once an action is selected. */
    method VerifyChoice(q: RuntimeRequest, d: Detail, selected: ActionCandidate, lowerBound: Cvoc.Bound, requested: Option<DeliberatorAnswer>)
      returns (outcome: Outcome)
      modifies this
      ensures outcome == WithChoice(controller, q, d, selected, lowerBound, requested)
      ensures traces == old(traces) + [outcome.trace]
    {
      var verification := VerifyAction(controller.crypto, controller.firewall, selected);
      if verification.None? {
        outcome := Finish(q, Deterministic, "VERIFIER_FAILURE", d, []);
        return;
      }
      if !verification.value.accepted {
        outcome := Finish(q, Deterministic, "VERIFICATION_REJECTED", d, [Verified(selected, false)]);
        return;
      }
      var calls := [Verified(selected, true)];
      if selected.family == Deliberate {
        var allowed := if q.requestedTextGeneration then requested else None;
        outcome := DeliberateOrStop(q, "CVOC_SELECTED_DELIBERATION", d, allowed, calls);
        return;
      }
      if selected.riskClass != ReadOnly {
        outcome := Finish(q, Deterministic, "EFFECT_EXECUTION_UNAVAILABLE", d.(lowerBound := Some(lowerBound)), calls);
        return;
      }
      outcome := Finish(q, Recommendation, "VERIFIED_RECOMMENDATION",
                        d.(selected := Some(selected), lowerBound := Some(lowerBound), authorityResult := "verified_not_committed"), calls);
    }

    /** The fast path of `run`: either the run finishes here, or it goes on with `passed`. */
    method ConsultFastPath(q: RuntimeRequest, plain: Detail, fast: FastAnswer) returns (done: Option<Outcome>, passed: Option<FastAnswer>)
      modifies this
      ensures FastGate(controller, q, plain, fast) == if done.Some? then Ends(done.value) else Passes(passed)
      ensures traces == old(traces) + if done.Some? then [done.value.trace] else []
    {
      if !controller.systemOneEnabled {
        return None, None;
      }
      var outcome: Outcome;
      if controller.fastPathProvider.None? {
        outcome := Finish(q, Deterministic, "SYSTEM_ONE_UNAVAILABLE", plain, []);
        return Some(outcome), None;
      }
      if controller.fastPathProvider.value != controller.systemOneProvider {
        outcome := Finish(q, Deterministic, "SYSTEM_ONE_PROVIDER_MISMATCH", plain, []);
        return Some(outcome), None;
      }
      if fast.FastRaised? {
        if !q.requestedTextGeneration {
          outcome := DeliberateOrStop(q, "SYSTEM_ONE_FAILURE", plain, None, []);
          return Some(outcome), None;
        }
        return None, None;
      }
      if fast.abstained {
        outcome := DeliberateOrStop(q, "SYSTEM_ONE_ABSTAINED", plain.(fast := Some(fast)), None, []);
        return Some(outcome), None;
      }
      if Answers(fast, "STOP_NOW") {
        outcome := Finish(q, SystemOne, "STOP_NOW", plain.(fast := Some(fast)), []);
        return Some(outcome), None;
      }
      if Answers(fast, "DELIBERATION_REQUIRED") {
        outcome := DeliberateOrStop(q, "DELIBERATION_REQUIRED", plain.(fast := Some(fast)), None, []);
        return Some(outcome), None;
      }
      return None, Some(fast);
    }

    /** The compilation `run` asks for, by the compiler's own loops. */
    method CompileCatalogue(q: RuntimeRequest, s: CompiledState) returns (candidates: seq<ActionCandidate>, noSafeAction: bool)
      requires controller.perFamilyCap >= 1 && RemainingBudget(s) >= 0.0
      ensures candidates == Candidates(controller, q, s) && noSafeAction == (candidates == [])
    {
      CompilationSucceeds(controller, q, s);
      var compiled := Compiler.CompileHierarchical(Catalogue(q, s), controller.perFamilyCap, CompileRequest(controller, q, s));
      return compiled.compilation.candidates, compiled.compilation.noSafeAction;
    }

    /** `run` once there is a state and a budget: compile, then consult the fast path. */
    method Prepare(q: RuntimeRequest, s: CompiledState, fast: FastAnswer)
      returns (done: Option<Outcome>, candidates: seq<ActionCandidate>, passed: Option<FastAnswer>)
      requires controller.perFamilyCap >= 1 && RemainingBudget(s) >= 0.0
      modifies this
      ensures candidates == Candidates(controller, q, s)
      ensures CompiledGate(controller, q, candidates, fast) == if done.Some? then Ends(done.value) else Passes(passed)
      ensures traces == old(traces) + if done.Some? then [done.value.trace] else []
    {
      var noSafeAction;
      candidates, noSafeAction := CompileCatalogue(q, s);
      var plain := BARE.(candidateIds := Ids(candidates));
      if noSafeAction {
        var outcome := Finish(q, Deterministic, "NO_SAFE_ACTION", plain, []);
        return Some(outcome), candidates, None;
      }
      done, passed := ConsultFastPath(q, plain, fast);
    }

    /** `run`: `None` is the ValueError of an empty run id. Every path of early returns appends
        exactly the trace of the outcome it returns. The cap is positive, as the candidate compiler
        demands of its constructor. */
    method Run(q: RuntimeRequest, state: StateOutcome, fast: FastAnswer, requested: Option<DeliberatorAnswer>) returns (outcome: Option<Outcome>)
      requires controller.perFamilyCap >= 1
      modifies this
      ensures outcome == if q.runId == "" then None else Some(RunSpec(controller, q, state, fast, requested))
      ensures traces == old(traces) + if outcome.Some? then [outcome.value.trace] else []
    {
      if q.runId == "" {
        return None;
      }
      var result: Outcome;
      if !controller.enabled {
        result := Finish(q, Deterministic, "C3R_DISABLED", BARE, []);
        return Some(result);
      }
      if state.NoState? {
        result := Finish(q, Deterministic, state.status, BARE, []);
        return Some(result);
      }
      if RemainingBudget(state.state) < 0.0 {
        result := Finish(q, Deterministic, "INVALID_BUDGET", BARE, []);
        return Some(result);
      }
      var done, candidates, passed := Prepare(q, state.state, fast);
      if done.Some? {
        return done;
      }
      result := SelectAndVerify(q, candidates, passed, requested);
      return Some(result);
    }
  }

  /** `next(...)` over the candidates. */
  method FindFallback(candidates: seq<ActionCandidate>) returns (fallback: Option<ActionCandidate>)
    ensures fallback == TextFallback(candidates)
  {
    for i := 0 to |candidates|
      invariant TextFallback(candidates) == TextFallback(candidates[i..])
    {
      if candidates[i].family == Deliberate && candidates[i].riskClass == ReadOnly {
        return Some(candidates[i]);
      }
      assert candidates[i..][1..] == candidates[i + 1..];
    }
    return None;
  }

  // ----- What a run guarantees

  /** With a budget that is not negative the compilation a run asks for never raises, and the run is
      refused as NO_SAFE_ACTION exactly when no definition of the catalogue survives. */
  lemma CompilationSucceeds(k: Controller, q: RuntimeRequest, s: CompiledState)
    requires k.perFamilyCap >= 1 && RemainingBudget(s) >= 0.0
    ensures var r := Compiler.CompileSpec(Catalogue(q, s), k.perFamilyCap, CompileRequest(k, q, s));
            && r.Ok? && r.compilation.candidates == Candidates(k, q, s)
            && (Candidates(k, q, s) == [] <==> !Compiler.SomeSurvivor(Catalogue(q, s), CompileRequest(k, q, s)))
  {
    Laws.NoSafeActionMeansNoSurvivor(Catalogue(q, s), k.perFamilyCap, CompileRequest(k, q, s));
  }

  lemma {:induction false} InFamiliesMembers(defs: seq<ActionDefinition>, families: seq<ActionFamily>)
    ensures forall d :: d in InFamilies(defs, families) <==> d in defs && d.family in families
    ensures Laws.DistinctIds(defs) ==> Laws.DistinctIds(InFamilies(defs, families))
  {
    if defs != [] {
      var init, d := defs[..|defs| - 1], defs[|defs| - 1];
      InFamiliesMembers(init, families);
      assert defs == init + [d];
      if Laws.DistinctIds(defs) {
        var kept := InFamilies(init, families);
        forall i | 0 <= i < |kept|
          ensures kept[i].id != d.id
        {
          assert kept[i] in kept;
          var j :| 0 <= j < |init| && init[j] == kept[i];
          assert defs[j] == kept[i];
        }
      }
    }
  }

  predicate Recommends(o: Outcome) { o.route == Recommendation }

  lemma DeliberationCalls(k: Controller, q: RuntimeRequest, reason: string, d: Detail, requested: Option<DeliberatorAnswer>, calls: seq<Call>)
    ensures var o := DeliberatedOrStopped(k, q, reason, d, requested, calls);
            && !Recommends(o)
            && (o.calls == calls || o.calls == calls + [Deliberated(if requested.Some? then Requested else Configured)])
  {
  }

  /** `o` recommends the choice `d`, read-only, not a deliberation, and accepted by the verifier
      that the policy names. */
  predicate FollowsChoice(k: Controller, o: Outcome, d: Cvoc.Decision) {
    && d.selected.Some? && o.selected == d.selected && o.lowerBound == Some(d.lowerBound)
    && o.selected.value.riskClass == ReadOnly && o.selected.value.family != Deliberate
    && PolicyAccepts(k.firewall, o.selected.value)
    && o.calls == [Verified(o.selected.value, true)]
    && o.trace.selectedActionId == Some(o.selected.value.id)
    && o.authorityResult == "verified_not_committed"
  }

  lemma ChoiceRecommends(k: Controller, q: RuntimeRequest, detail: Detail, d: Cvoc.Decision, requested: Option<DeliberatorAnswer>)
    requires d.selected.Some? && Recommends(WithChoice(k, q, detail, d.selected.value, d.lowerBound, requested))
    ensures FollowsChoice(k, WithChoice(k, q, detail, d.selected.value, d.lowerBound, requested), d)
  {
  }

  lemma NoChoiceNoRecommendation(k: Controller, q: RuntimeRequest, candidates: seq<ActionCandidate>, fast: Option<FastAnswer>, requested: Option<DeliberatorAnswer>)
    ensures !Recommends(WithoutChoice(k, q, candidates, fast, requested))
  {
  }

  /** Ending early never recommends, and calls at most the configured deliberator. */
  lemma EndingEarly(k: Controller, q: RuntimeRequest, state: StateOutcome, fast: FastAnswer)
    ensures var g := EntryGate(k, q, state, fast);
            g.Ends? ==> !Recommends(g.outcome) && (g.outcome.calls == [] || g.outcome.calls == [Deliberated(Configured)])
  {
    if state.HasState? {
      var plain := BARE.(candidateIds := Ids(Candidates(k, q, state.state)));
      EndingAtFastPath(k, q, plain, fast);
    }
  }

  lemma EndingAtFastPath(k: Controller, q: RuntimeRequest, plain: Detail, fast: FastAnswer)
    ensures var g := FastGate(k, q, plain, fast);
            g.Ends? ==> !Recommends(g.outcome) && (g.outcome.calls == [] || g.outcome.calls == [Deliberated(Configured)])
  {
    assert [] + [Deliberated(Configured)] == [Deliberated(Configured)];
  }

  lemma RecommendationComesFromSelection(k: Controller, q: RuntimeRequest, state: StateOutcome, fast: FastAnswer, requested: Option<DeliberatorAnswer>)
    requires Recommends(RunSpec(k, q, state, fast, requested))
    ensures state.HasState? && FollowsChoice(k, RunSpec(k, q, state, fast, requested), Choice(k, q, state.state))
  {
    EndingEarly(k, q, state, fast);
    var passed, d := EntryGate(k, q, state, fast).fast, Choice(k, q, state.state);
    NoChoiceNoRecommendation(k, q, Candidates(k, q, state.state), passed, requested);
    ChoiceRecommends(k, q, BARE.(candidateIds := Ids(Candidates(k, q, state.state)), fast := passed), d, requested);
  }

  /** The grounds for a recommendation: a definition of the request's catalogue, in an available
      family, permitted by the policy and within the data boundary, affordable with the remaining
      budget, whose expansion the selected action is. */
  predicate Grounded(k: Controller, q: RuntimeRequest, s: CompiledState, d: ActionDefinition, c: ActionCandidate) {
    && d in q.definitions && d.family in s.families
    && c.family == d.family && c.riskClass == d.riskClass
    && c.family in q.policy.allowedFamilies && c.riskClass in q.policy.allowedRisks
    && d.dataBoundary in q.policy.allowedDataBoundaries && d.provenanceComplete
    && d.estimatedCost <= RemainingBudget(s) && d.optimisticUtility >= 0.0
    && c.requestedVerifier.Some? && c.requestedVerifier.value in d.verifierIds && c.requestedVerifier.value in k.firewall.verifiers
  }

  lemma AdmittedIsGrounded(k: Controller, q: RuntimeRequest, s: CompiledState, d: ActionDefinition, c: ActionCandidate)
    requires d in q.definitions && d.family in s.families
    requires Compiler.Survives(d, CompileRequest(k, q, s)) && Laws.ExpandsFrom(c, d, CompileRequest(k, q, s))
    ensures Grounded(k, q, s, d, c)
  {
    var i: nat, p, v :|
      && i < |Compiler.Variants(d)| && p in Compiler.Placements(d) && v in d.verifierIds && v in CompileRequest(k, q, s).allowedVerifiers
      && c == Compiler.Candidate(d, Compiler.OperationSkeleton(d), i, Compiler.Variants(d)[i], p, v);
  }

  /** Whenever a run recommends an action, and the definitions have distinct ids, the action is
      read-only, accepted by the policy's verifier, has a positive lower bound that no estimated
      candidate exceeds, and is grounded in the catalogue, the policy and the budget. */
  lemma EveryRecommendationIsJustified(k: Controller, q: RuntimeRequest, state: StateOutcome, fast: FastAnswer, requested: Option<DeliberatorAnswer>)
    returns (d: ActionDefinition)
    requires Laws.DistinctIds(q.definitions) && Recommends(RunSpec(k, q, state, fast, requested))
    ensures state.HasState?
    ensures var o, s := RunSpec(k, q, state, fast, requested), state.state;
            && o.selected.Some? && o.selected.value.riskClass == ReadOnly && PolicyAccepts(k.firewall, o.selected.value)
            && Grounded(k, q, s, d, o.selected.value)
            && o.selected.value.id in q.estimates
            && o.lowerBound == Some(Cvoc.LowerBound(k.multiplier, q.estimates[o.selected.value.id])) && Cvoc.Positive(o.lowerBound.value)
            && forall c :: c in Candidates(k, q, s) && c.id in q.estimates ==>
                 Cvoc.AtMost(Cvoc.LowerBound(k.multiplier, q.estimates[c.id]), o.lowerBound.value)
  {
    RecommendationComesFromSelection(k, q, state, fast, requested);
    var s, o := state.state, RunSpec(k, q, state, fast, requested);
    Cvoc.SelectIsConservative(k.multiplier, Candidates(k, q, s), q.estimates);
    InFamiliesMembers(q.definitions, s.families);
    d := Laws.EveryCandidateIsAdmitted(Catalogue(q, s), k.perFamilyCap, CompileRequest(k, q, s), o.selected.value);
    AdmittedIsGrounded(k, q, s, d, o.selected.value);
  }

  /** The fast path can stop or divert a run but cannot steer it: two runs on the same request with
      any two answers of the fast path, any deliberators, that both recommend, recommend the same
      action with the same bound from the same candidates. */
  lemma FastPathCannotSteer(k: Controller, q: RuntimeRequest, state: StateOutcome,
                            fast: FastAnswer, fast': FastAnswer, requested: Option<DeliberatorAnswer>, requested': Option<DeliberatorAnswer>)
    requires Recommends(RunSpec(k, q, state, fast, requested)) && Recommends(RunSpec(k, q, state, fast', requested'))
    ensures var o, o' := RunSpec(k, q, state, fast, requested), RunSpec(k, q, state, fast', requested');
            && o.selected == o'.selected && o.lowerBound == o'.lowerBound
            && o.calls == o'.calls && o.authorityResult == o'.authorityResult
  {
    RecommendationComesFromSelection(k, q, state, fast, requested);
    RecommendationComesFromSelection(k, q, state, fast', requested');
  }

  lemma {:induction false} FallbackDeliberates(candidates: seq<ActionCandidate>)
    ensures TextFallback(candidates).Some? ==>
              TextFallback(candidates).value in candidates && TextFallback(candidates).value.family == Deliberate
  {
    if candidates != [] && !(candidates[0].family == Deliberate && candidates[0].riskClass == ReadOnly) {
      FallbackDeliberates(candidates[1..]);
    }
  }

  /** At most one verification, and at most one deliberation: the configured deliberator alone, or
      one that follows the accepted verification of a DELIBERATE candidate; the caller's own only
      when it asked for text. */
  predicate Disciplined(k: Controller, q: RuntimeRequest, candidates: seq<ActionCandidate>, calls: seq<Call>) {
    || calls == []
    || calls == [Deliberated(Configured)]
    || (|calls| == 1 && calls[0].Verified?)
    || (|calls| == 2 && calls[0].Verified? && calls[0].accepted
        && calls[0].candidate in candidates && calls[0].candidate.family == Deliberate
        && PolicyAccepts(k.firewall, calls[0].candidate)
        && calls[1].Deliberated? && (calls[1].which == Requested ==> q.requestedTextGeneration))
  }

  lemma ChoiceIsDisciplined(k: Controller, q: RuntimeRequest, candidates: seq<ActionCandidate>, detail: Detail,
                            selected: ActionCandidate, lowerBound: Cvoc.Bound, requested: Option<DeliberatorAnswer>)
    requires selected in candidates
    ensures Disciplined(k, q, candidates, WithChoice(k, q, detail, selected, lowerBound, requested).calls)
  {
    var calls := [Verified(selected, true)];
    DeliberationCalls(k, q, "CVOC_SELECTED_DELIBERATION", detail, if q.requestedTextGeneration then requested else None, calls);
  }

  lemma FallbackIsDisciplined(k: Controller, q: RuntimeRequest, candidates: seq<ActionCandidate>, fast: Option<FastAnswer>, requested: Option<DeliberatorAnswer>)
    ensures Disciplined(k, q, candidates, WithoutChoice(k, q, candidates, fast, requested).calls)
  {
    FallbackDeliberates(candidates);
    if TextFallback(candidates).Some? {
      var calls := [Verified(TextFallback(candidates).value, true)];
      DeliberationCalls(k, q, "REQUESTED_TEXT_POLICY_FALLBACK", BARE.(candidateIds := Ids(candidates), fast := fast), requested, calls);
    }
  }

  /** In every run a requested deliberator is invoked at most once, and only after the policy's
      verifier accepted a DELIBERATE candidate of this run. */
  lemma RequestedDeliberatorIsMediated(k: Controller, q: RuntimeRequest, state: StateOutcome, fast: FastAnswer, requested: Option<DeliberatorAnswer>)
    ensures Disciplined(k, q, if state.HasState? then Candidates(k, q, state.state) else [], RunSpec(k, q, state, fast, requested).calls)
  {
    EndingEarly(k, q, state, fast);
    var gate := EntryGate(k, q, state, fast);
    if gate.Passes? {
      var candidates, d := Candidates(k, q, state.state), Choice(k, q, state.state);
      Cvoc.SelectIsConservative(k.multiplier, candidates, q.estimates);
      FallbackIsDisciplined(k, q, candidates, gate.fast, requested);
      if d.selected.Some? {
        ChoiceIsDisciplined(k, q, candidates, BARE.(candidateIds := Ids(candidates), fast := gate.fast), d.selected.value, d.lowerBound, requested);
      }
    }
  }
}
