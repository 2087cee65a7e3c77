/** When a run of the controller ends how: each route characterised by the request, the policy and
    the answers alone, and what the trace says about the outcome. */
module RuntimeLaws {
  import opened Schema
  import opened Trace
  import opened Authority
  import opened Runtime
  import Compiler = CandidateCompiler
  import Laws = CompilerLaws
  import Candidate = CandidateLaws
  import Cvoc

  // ----- The conditions

  /** The run has a state, a budget and at least one definition it may expand. */
  ghost predicate HasCandidates(k: Controller, q: RuntimeRequest, state: StateOutcome) {
    && k.enabled && state.HasState? && RemainingBudget(state.state) >= 0.0
    && exists d :: Expandable(k, q, state.state, d)
  }

  predicate SaysYes(fast: FastAnswer, question: string) {
    fast.Fast? && question in fast.answers && fast.answers[question] == "YES"
  }

  /** The configured fast path is the one the flags ask for. */
  predicate Consulted(k: Controller) {
    k.systemOneEnabled && k.fastPathProvider.Some? && k.fastPathProvider.value == k.systemOneProvider
  }

  /** The fast path lets the run go on: it is off, or it failed on a text request, or it neither
      abstained nor asked to stop nor to deliberate. */
  predicate LetsThrough(k: Controller, q: RuntimeRequest, fast: FastAnswer) {
    || !k.systemOneEnabled
    || (Consulted(k) &&
        if fast.FastRaised? then q.requestedTextGeneration
        else !fast.abstained && !SaysYes(fast, "STOP_NOW") && !SaysYes(fast, "DELIBERATION_REQUIRED"))
  }

  /** The fast path sends the run to deliberation. */
  predicate Diverts(k: Controller, q: RuntimeRequest, fast: FastAnswer) {
    Consulted(k) &&
    if fast.FastRaised? then !q.requestedTextGeneration
    else fast.abstained || (!SaysYes(fast, "STOP_NOW") && SaysYes(fast, "DELIBERATION_REQUIRED"))
  }

  /** The fast path stops the run. */
  predicate StopsRun(k: Controller, fast: FastAnswer) {
    Consulted(k) && fast.Fast? && !fast.abstained && SaysYes(fast, "STOP_NOW")
  }

  /** The verifier that the risk class names, or else the default one, accepts the candidate, and
      the firewall's key is long enough to attest it. */
  predicate Vouched(fw: Firewall, c: ActionCandidate) {
    var id := if c.riskClass in fw.byRisk then fw.byRisk[c.riskClass] else fw.defaultVerifier;
    && id in fw.verifiers && |fw.attestationKey| >= 16
    && fw.verifiers[id](c).Opinion? && fw.verifiers[id](c).accepted
  }

  /** The deliberator that would answer gives a usable answer. */
  predicate Delivers(k: Controller, requested: Option<DeliberatorAnswer>) {
    var answer := if requested.Some? then requested else k.deliberator;
    && k.deliberativeEnabled && answer.Some? && !answer.value.DeliberatorRaised?
    && (answer.value.ProviderResult? ==> forall key :: key in answer.value.cost ==> answer.value.cost[key].Finite? && answer.value.cost[key].value >= 0.0)
  }

  // ----- The compilation and the gates

  /** A definition of the request that its policy and budget let the run expand. */
  ghost predicate Expandable(k: Controller, q: RuntimeRequest, s: CompiledState, d: ActionDefinition) {
    && d in q.definitions && d.family in s.families
    && Candidate.Permitted(d, CompileRequest(k, q, s)) && d.estimatedCost <= RemainingBudget(s) && d.optimisticUtility >= 0.0
  }

  lemma ExpandableMeans(k: Controller, q: RuntimeRequest, s: CompiledState, d: ActionDefinition)
    ensures Expandable(k, q, s, d) <==> d in Catalogue(q, s) && Compiler.Survives(d, CompileRequest(k, q, s))
  {
    InFamiliesMembers(q.definitions, s.families);
    Candidate.SurvivesMeans(d, CompileRequest(k, q, s));
  }

  lemma SurvivorsMean(k: Controller, q: RuntimeRequest, s: CompiledState)
    ensures Compiler.SomeSurvivor(Catalogue(q, s), CompileRequest(k, q, s)) <==> exists d :: Expandable(k, q, s, d)
  {
    var catalogue := Catalogue(q, s);
    if i :| 0 <= i < |catalogue| && Compiler.Survives(catalogue[i], CompileRequest(k, q, s)) {
      ExpandableMeans(k, q, s, catalogue[i]);
    }
    if d :| Expandable(k, q, s, d) {
      ExpandableMeans(k, q, s, d);
      var i :| 0 <= i < |catalogue| && catalogue[i] == d;
    }
  }

  lemma CandidatesExist(k: Controller, q: RuntimeRequest, state: StateOutcome)
    requires k.perFamilyCap >= 1 && k.enabled && state.HasState? && RemainingBudget(state.state) >= 0.0
    ensures Candidates(k, q, state.state) != [] <==> HasCandidates(k, q, state)
  {
    CompilationSucceeds(k, q, state.state);
    SurvivorsMean(k, q, state.state);
  }

  lemma GatePasses(k: Controller, q: RuntimeRequest, state: StateOutcome, fast: FastAnswer)
    requires k.perFamilyCap >= 1
    ensures EntryGate(k, q, state, fast).Passes? <==> HasCandidates(k, q, state) && LetsThrough(k, q, fast)
  {
    if k.enabled && state.HasState? && RemainingBudget(state.state) >= 0.0 {
      CandidatesExist(k, q, state);
    }
  }

  lemma VouchedMeans(k: Controller, c: ActionCandidate)
    ensures VerifyAction(k.crypto, k.firewall, c).Some? && VerifyAction(k.crypto, k.firewall, c).value.accepted <==> Vouched(k.firewall, c)
  {
  }

  lemma DeliversMeans(k: Controller, q: RuntimeRequest, reason: string, d: Detail, requested: Option<DeliberatorAnswer>, calls: seq<Call>)
    ensures DeliberatedOrStopped(k, q, reason, d, requested, calls).route == if Delivers(k, requested) then Deliberative else Deterministic
    ensures DeliberatedOrStopped(k, q, reason, d, requested, calls).selected == d.selected
  {
  }

  // ----- The routes

  /** Selection found an action worth taking. */
  predicate Chosen(k: Controller, q: RuntimeRequest, state: StateOutcome, c: ActionCandidate) {
    state.HasState? && Choice(k, q, state.state).selected == Some(c)
  }

  lemma ChoiceRoute(k: Controller, q: RuntimeRequest, d: Detail, c: ActionCandidate, bound: Cvoc.Bound, requested: Option<DeliberatorAnswer>)
    requires d.selected.None?
    ensures var o := WithChoice(k, q, d, c, bound, requested);
            && (o.route == Recommendation <==> Vouched(k.firewall, c) && c.riskClass == ReadOnly && c.family != Deliberate)
            && (o.route == Deliberative <==>
                  Vouched(k.firewall, c) && c.family == Deliberate && Delivers(k, if q.requestedTextGeneration then requested else None))
            && o.route != SystemOne
            && o.selected == if o.route == Recommendation then Some(c) else None
  {
    VouchedMeans(k, c);
    DeliversMeans(k, q, "CVOC_SELECTED_DELIBERATION", d, if q.requestedTextGeneration then requested else None, [Verified(c, true)]);
  }

  /** The first candidate that may answer a text request. */
  predicate Fallback(candidates: seq<ActionCandidate>, c: ActionCandidate) {
    exists i :: 0 <= i < |candidates| && candidates[i] == c && c.family == Deliberate && c.riskClass == ReadOnly
                && forall j :: 0 <= j < i ==> candidates[j].family != Deliberate || candidates[j].riskClass != ReadOnly
  }

  lemma {:induction false} FallbackMeans(candidates: seq<ActionCandidate>, c: ActionCandidate)
    ensures TextFallback(candidates) == Some(c) <==> Fallback(candidates, c)
  {
    if candidates != [] {
      var head, tail := candidates[0], candidates[1..];
      if head.family == Deliberate && head.riskClass == ReadOnly {
        if Fallback(candidates, c) {
          var i :| 0 <= i < |candidates| && candidates[i] == c && forall j :: 0 <= j < i ==> candidates[j].family != Deliberate || candidates[j].riskClass != ReadOnly;
          assert i == 0;
        }
      } else {
        FallbackMeans(tail, c);
        if Fallback(tail, c) {
          var i :| 0 <= i < |tail| && tail[i] == c && c.family == Deliberate && c.riskClass == ReadOnly
                   && forall j :: 0 <= j < i ==> tail[j].family != Deliberate || tail[j].riskClass != ReadOnly;
          assert candidates[i + 1] == c;
          forall j | 0 <= j < i + 1
            ensures candidates[j].family != Deliberate || candidates[j].riskClass != ReadOnly
          {
            assert j > 0 ==> candidates[j] == tail[j - 1];
          }
        }
        if Fallback(candidates, c) {
          var i :| 0 <= i < |candidates| && candidates[i] == c && c.family == Deliberate && c.riskClass == ReadOnly
                   && forall j :: 0 <= j < i ==> candidates[j].family != Deliberate || candidates[j].riskClass != ReadOnly;
          assert i > 0 && tail[i - 1] == c;
        }
      }
    }
  }

  lemma NoChoiceRoute(k: Controller, q: RuntimeRequest, candidates: seq<ActionCandidate>, fast: Option<FastAnswer>, requested: Option<DeliberatorAnswer>)
    ensures var o := WithoutChoice(k, q, candidates, fast, requested);
            && o.route != Recommendation && o.route != SystemOne && o.selected.None?
            && (o.route == Deliberative <==>
                  q.requestedTextGeneration && requested.Some? && Delivers(k, requested)
                  && exists c :: Fallback(candidates, c) && Vouched(k.firewall, c))
  {
    var plain, fallback := BARE.(candidateIds := Ids(candidates)), TextFallback(candidates);
    if fallback.Some? {
      var c := fallback.value;
      FallbackMeans(candidates, c);
      VouchedMeans(k, c);
      DeliversMeans(k, q, "REQUESTED_TEXT_POLICY_FALLBACK", plain.(fast := fast), requested, [Verified(c, true)]);
    }
    forall c | Fallback(candidates, c)
      ensures fallback == Some(c)
    {
      FallbackMeans(candidates, c);
    }
  }

  lemma EndingRoute(k: Controller, q: RuntimeRequest, state: StateOutcome, fast: FastAnswer)
    requires k.perFamilyCap >= 1 && EntryGate(k, q, state, fast).Ends?
    ensures var o := EntryGate(k, q, state, fast).outcome;
            && o.route != Recommendation && o.selected.None?
            && (o.route == SystemOne <==> HasCandidates(k, q, state) && StopsRun(k, fast))
            && (o.route == SystemOne ==> o.calls == [] && o.reason == "STOP_NOW")
            && (o.route == Deliberative <==> HasCandidates(k, q, state) && Diverts(k, q, fast) && Delivers(k, None))
  {
    if k.enabled && state.HasState? && RemainingBudget(state.state) >= 0.0 {
      CandidatesExist(k, q, state);
      var plain := BARE.(candidateIds := Ids(Candidates(k, q, state.state)));
      FastRoute(k, q, plain, fast);
    }
  }

  lemma FastRoute(k: Controller, q: RuntimeRequest, plain: Detail, fast: FastAnswer)
    requires plain.selected.None?
    ensures FastGate(k, q, plain, fast).Passes? <==> LetsThrough(k, q, fast)
    ensures FastGate(k, q, plain, fast).Ends? ==>
              var o := FastGate(k, q, plain, fast).outcome;
              && o.route != Recommendation && o.selected.None?
              && (o.route == SystemOne <==> StopsRun(k, fast))
              && (o.route == SystemOne ==> o.calls == [] && o.reason == "STOP_NOW")
              && (o.route == Deliberative <==> Diverts(k, q, fast) && Delivers(k, None))
  {
    var detail := plain.(fast := Some(fast));
    DeliversMeans(k, q, "SYSTEM_ONE_FAILURE", plain, None, []);
    DeliversMeans(k, q, "SYSTEM_ONE_ABSTAINED", detail, None, []);
    DeliversMeans(k, q, "DELIBERATION_REQUIRED", detail, None, []);
  }

  lemma OneRoute(k: Controller, q: RuntimeRequest, state: StateOutcome, fast: FastAnswer, requested: Option<DeliberatorAnswer>)
    requires k.perFamilyCap >= 1 && EntryGate(k, q, state, fast).Passes?
    ensures var o := RunSpec(k, q, state, fast, requested);
            && o.route != SystemOne
            && (o.route == Recommendation <==>
                  exists c :: Chosen(k, q, state, c) && Vouched(k.firewall, c) && c.riskClass == ReadOnly && c.family != Deliberate)
            && (o.route == Deliberative <==> ReachesDeliberator(k, q, state, requested))
            && (o.selected.Some? <==> o.route == Recommendation)
            && (o.selected.Some? ==> Chosen(k, q, state, o.selected.value))
  {
    var passed, candidates, choice := EntryGate(k, q, state, fast).fast, Candidates(k, q, state.state), Choice(k, q, state.state);
    if choice.selected.Some? {
      ChoiceRoute(k, q, BARE.(candidateIds := Ids(candidates), fast := passed), choice.selected.value, choice.lowerBound, requested);
      assert Chosen(k, q, state, choice.selected.value);
    } else {
      NoChoiceRoute(k, q, candidates, passed, requested);
    }
  }

  /** After selection: a chosen deliberation, or without a choice the fallback of a text request,
      that its verifier accepts and a deliberator answers. */
  ghost predicate ReachesDeliberator(k: Controller, q: RuntimeRequest, state: StateOutcome, requested: Option<DeliberatorAnswer>) {
    state.HasState? &&
    if Choice(k, q, state.state).selected.Some? then
      exists c :: Chosen(k, q, state, c) && c.family == Deliberate && Vouched(k.firewall, c)
                  && Delivers(k, if q.requestedTextGeneration then requested else None)
    else
      && q.requestedTextGeneration && requested.Some? && Delivers(k, requested)
      && exists c :: Fallback(Candidates(k, q, state.state), c) && Vouched(k.firewall, c)
  }

  /** A run recommends exactly when it has candidates, the fast path lets it through, and selection
      finds an action that its verifier accepts, that is read-only and not a deliberation. */
  lemma RecommendsExactlyWhen(k: Controller, q: RuntimeRequest, state: StateOutcome, fast: FastAnswer, requested: Option<DeliberatorAnswer>)
    requires k.perFamilyCap >= 1
    ensures RunSpec(k, q, state, fast, requested).route == Recommendation
       <==> && HasCandidates(k, q, state) && LetsThrough(k, q, fast)
            && exists c :: Chosen(k, q, state, c) && Vouched(k.firewall, c) && c.riskClass == ReadOnly && c.family != Deliberate
  {
    GatePasses(k, q, state, fast);
    if EntryGate(k, q, state, fast).Passes? {
      OneRoute(k, q, state, fast, requested);
    } else {
      EndingRoute(k, q, state, fast);
    }
  }

  /** A run ends on the fast path exactly when a consulted fast path answers STOP_NOW without
      abstaining; then nothing is selected and no verifier and no deliberator is called. */
  lemma StopsExactlyWhen(k: Controller, q: RuntimeRequest, state: StateOutcome, fast: FastAnswer, requested: Option<DeliberatorAnswer>)
    requires k.perFamilyCap >= 1
    ensures var o := RunSpec(k, q, state, fast, requested);
            && (o.route == SystemOne <==> HasCandidates(k, q, state) && StopsRun(k, fast))
            && (o.route == SystemOne ==> o.selected.None? && o.calls == [] && o.reason == "STOP_NOW")
  {
    GatePasses(k, q, state, fast);
    if EntryGate(k, q, state, fast).Passes? {
      OneRoute(k, q, state, fast, requested);
    } else {
      EndingRoute(k, q, state, fast);
    }
  }

  /** A run deliberates exactly when the fast path diverts it to a deliberator that answers, or lets
      it through to a verified deliberation that is answered. */
  lemma DeliberatesExactlyWhen(k: Controller, q: RuntimeRequest, state: StateOutcome, fast: FastAnswer, requested: Option<DeliberatorAnswer>)
    requires k.perFamilyCap >= 1
    ensures RunSpec(k, q, state, fast, requested).route == Deliberative
       <==> && HasCandidates(k, q, state)
            && ((Diverts(k, q, fast) && Delivers(k, None)) || (LetsThrough(k, q, fast) && ReachesDeliberator(k, q, state, requested)))
  {
    GatePasses(k, q, state, fast);
    if EntryGate(k, q, state, fast).Passes? {
      OneRoute(k, q, state, fast, requested);
    } else {
      EndingRoute(k, q, state, fast);
    }
  }

  // ----- The trace

  /** The trace of an outcome names the run, the candidates, the selection, its bound, the authority
      result and the reason of that outcome. */
  predicate Tells(q: RuntimeRequest, o: Outcome) {
    var t := o.trace;
    && t.runId == q.runId && t.stateHash == q.stateHash && t.accessLevel == q.accessLevel
    && t.candidateIds == o.candidateIds && t.authorityResult == o.authorityResult && t.artifactRefs == []
    && t.selectedActionId.Some? == o.selected.Some? && (o.selected.Some? ==> t.selectedActionId.value == o.selected.value.id)
    && t.taskOutcome.Keys == {"status"} && t.taskOutcome["status"] == Word(o.reason)
    && (o.lowerBound.None? ==> t.utilityQuantiles == map[])
    && (o.lowerBound.Some? && o.lowerBound.value.Fin? ==>
          t.utilityQuantiles.Keys == {"selected_lower_bound"} && t.utilityQuantiles["selected_lower_bound"] == Finite(o.lowerBound.value.value))
  }

  lemma FinishedTells(q: RuntimeRequest, route: Route, reason: string, d: Detail, calls: seq<Call>)
    ensures Tells(q, Finished(q, route, reason, d, calls))
  {
  }

  /** The arguments of one `finish`. */
  datatype Ending = Ending(route: Route, reason: string, detail: Detail, calls: seq<Call>)

  function Ended(q: RuntimeRequest, e: Ending): Outcome { Finished(q, e.route, e.reason, e.detail, e.calls) }

  lemma DeliberationEnds(k: Controller, q: RuntimeRequest, reason: string, d: Detail, requested: Option<DeliberatorAnswer>, calls: seq<Call>) returns (e: Ending)
    ensures DeliberatedOrStopped(k, q, reason, d, requested, calls) == Ended(q, e)
  {
    var which, answer := if requested.Some? then Requested else Configured, if requested.Some? then requested else k.deliberator;
    var after := calls + [Deliberated(which)];
    if !k.deliberativeEnabled || answer.None? {
      e := Ending(Deterministic, reason + "_NO_PROVIDER", d, calls);
    } else if answer.value.DeliberatorRaised? {
      e := Ending(Deterministic, "DELIBERATIVE_FAILURE", d, after);
    } else if answer.value.PlainResult? {
      e := Ending(Deliberative, reason, d, after);
    } else if InvalidCost(answer.value.cost) {
      e := Ending(Deterministic, "DELIBERATIVE_INVALID_COST", d, after);
    } else {
      e := Ending(Deliberative, reason, d.(cost := answer.value.cost, providerId := answer.value.providerId), after);
    }
  }

  lemma FastEnds(k: Controller, q: RuntimeRequest, plain: Detail, fast: FastAnswer) returns (e: Ending)
    requires FastGate(k, q, plain, fast).Ends?
    ensures FastGate(k, q, plain, fast).outcome == Ended(q, e)
  {
    var detail := plain.(fast := Some(fast));
    if k.fastPathProvider.None? {
      e := Ending(Deterministic, "SYSTEM_ONE_UNAVAILABLE", plain, []);
    } else if k.fastPathProvider.value != k.systemOneProvider {
      e := Ending(Deterministic, "SYSTEM_ONE_PROVIDER_MISMATCH", plain, []);
    } else if fast.FastRaised? {
      e := DeliberationEnds(k, q, "SYSTEM_ONE_FAILURE", plain, None, []);
    } else if fast.abstained {
      e := DeliberationEnds(k, q, "SYSTEM_ONE_ABSTAINED", detail, None, []);
    } else if Answers(fast, "STOP_NOW") {
      e := Ending(SystemOne, "STOP_NOW", detail, []);
    } else {
      e := DeliberationEnds(k, q, "DELIBERATION_REQUIRED", detail, None, []);
    }
  }

  lemma ChoiceEnds(k: Controller, q: RuntimeRequest, d: Detail, c: ActionCandidate, bound: Cvoc.Bound, requested: Option<DeliberatorAnswer>) returns (e: Ending)
    ensures WithChoice(k, q, d, c, bound, requested) == Ended(q, e)
  {
    var v := VerifyAction(k.crypto, k.firewall, c);
    if v.None? {
      e := Ending(Deterministic, "VERIFIER_FAILURE", d, []);
    } else if !v.value.accepted {
      e := Ending(Deterministic, "VERIFICATION_REJECTED", d, [Verified(c, false)]);
    } else if c.family == Deliberate {
      e := DeliberationEnds(k, q, "CVOC_SELECTED_DELIBERATION", d, if q.requestedTextGeneration then requested else None, [Verified(c, true)]);
    } else if c.riskClass != ReadOnly {
      e := Ending(Deterministic, "EFFECT_EXECUTION_UNAVAILABLE", d.(lowerBound := Some(bound)), [Verified(c, true)]);
    } else {
      e := Ending(Recommendation, "VERIFIED_RECOMMENDATION",
                  d.(selected := Some(c), lowerBound := Some(bound), authorityResult := "verified_not_committed"), [Verified(c, true)]);
    }
  }

  lemma NoChoiceEnds(k: Controller, q: RuntimeRequest, candidates: seq<ActionCandidate>, fast: Option<FastAnswer>, requested: Option<DeliberatorAnswer>) returns (e: Ending)
    ensures WithoutChoice(k, q, candidates, fast, requested) == Ended(q, e)
  {
    var plain := BARE.(candidateIds := Ids(candidates));
    var fallback := if q.requestedTextGeneration && requested.Some? then TextFallback(candidates) else None;
    if fallback.None? {
      e := Ending(Deterministic, "NON_POSITIVE_CVOC", plain.(fast := fast), []);
    } else {
      var v := VerifyAction(k.crypto, k.firewall, fallback.value);
      if v.None? {
        e := Ending(Deterministic, "VERIFIER_FAILURE", plain, []);
      } else if v.value.accepted {
        e := DeliberationEnds(k, q, "REQUESTED_TEXT_POLICY_FALLBACK", plain.(fast := fast), requested, [Verified(fallback.value, true)]);
      } else {
        e := Ending(Deterministic, "VERIFICATION_REJECTED", plain, [Verified(fallback.value, false)]);
      }
    }
  }

  lemma EntryEnds(k: Controller, q: RuntimeRequest, state: StateOutcome, fast: FastAnswer) returns (e: Ending)
    requires EntryGate(k, q, state, fast).Ends?
    ensures EntryGate(k, q, state, fast).outcome == Ended(q, e)
  {
    if !k.enabled {
      e := Ending(Deterministic, "C3R_DISABLED", BARE, []);
    } else if state.NoState? {
      e := Ending(Deterministic, state.status, BARE, []);
    } else if RemainingBudget(state.state) < 0.0 {
      e := Ending(Deterministic, "INVALID_BUDGET", BARE, []);
    } else {
      e := CompiledEnds(k, q, Candidates(k, q, state.state), fast);
    }
  }

  lemma CompiledEnds(k: Controller, q: RuntimeRequest, candidates: seq<ActionCandidate>, fast: FastAnswer) returns (e: Ending)
    requires CompiledGate(k, q, candidates, fast).Ends?
    ensures CompiledGate(k, q, candidates, fast).outcome == Ended(q, e)
  {
    var plain := BARE.(candidateIds := Ids(candidates));
    if candidates == [] {
      e := Ending(Deterministic, "NO_SAFE_ACTION", plain, []);
    } else {
      e := FastEnds(k, q, plain, fast);
    }
  }

  lemma SelectionEnds(k: Controller, q: RuntimeRequest, candidates: seq<ActionCandidate>, fast: Option<FastAnswer>, requested: Option<DeliberatorAnswer>) returns (e: Ending)
    ensures SelectedAndVerified(k, q, candidates, fast, requested) == Ended(q, e)
  {
    var d := Cvoc.Select(k.multiplier, candidates, q.estimates);
    if d.selected.Some? {
      e := ChoiceEnds(k, q, BARE.(candidateIds := Ids(candidates), fast := fast), d.selected.value, d.lowerBound, requested);
    } else {
      e := NoChoiceEnds(k, q, candidates, fast, requested);
    }
  }

  /** Every run ends in one `finish`, whose trace tells its outcome. */
  lemma EveryTraceTells(k: Controller, q: RuntimeRequest, state: StateOutcome, fast: FastAnswer, requested: Option<DeliberatorAnswer>) returns (e: Ending)
    ensures RunSpec(k, q, state, fast, requested) == Ended(q, e) && Tells(q, RunSpec(k, q, state, fast, requested))
  {
    var gate := EntryGate(k, q, state, fast);
    if gate.Passes? {
      e := SelectionEnds(k, q, Candidates(k, q, state.state), gate.fast, requested);
    } else {
      e := EntryEnds(k, q, state, fast);
    }
    FinishedTells(q, e.route, e.reason, e.detail, e.calls);
  }

  // ----- Declining

  /** The verifier the policy names rejects the candidate. */
  predicate Refused(fw: Firewall, c: ActionCandidate) {
    var id := if c.riskClass in fw.byRisk then fw.byRisk[c.riskClass] else fw.defaultVerifier;
    && id in fw.verifiers && |fw.attestationKey| >= 16
    && fw.verifiers[id](c).Opinion? && !fw.verifiers[id](c).accepted
  }

  lemma RefusedMeans(k: Controller, c: ActionCandidate)
    ensures VerifyAction(k.crypto, k.firewall, c).Some? && !VerifyAction(k.crypto, k.firewall, c).value.accepted <==> Refused(k.firewall, c)
  {
  }

  /** A run that cannot start, compile or consult says why, in this order. */
  lemma EarlyReasons(k: Controller, q: RuntimeRequest, state: StateOutcome, fast: FastAnswer, requested: Option<DeliberatorAnswer>)
    requires k.perFamilyCap >= 1
    ensures var o := RunSpec(k, q, state, fast, requested);
            && (!k.enabled ==> o.reason == "C3R_DISABLED" && o.candidateIds == [])
            && (k.enabled && state.NoState? ==> o.reason == state.status && o.candidateIds == [])
            && (k.enabled && state.HasState? && RemainingBudget(state.state) < 0.0 ==> o.reason == "INVALID_BUDGET" && o.candidateIds == [])
            && (k.enabled && state.HasState? && RemainingBudget(state.state) >= 0.0 && !HasCandidates(k, q, state) ==> o.reason == "NO_SAFE_ACTION")
            && (HasCandidates(k, q, state) && k.systemOneEnabled && k.fastPathProvider.None? ==> o.reason == "SYSTEM_ONE_UNAVAILABLE")
            && (HasCandidates(k, q, state) && k.systemOneEnabled && k.fastPathProvider.Some? && !Consulted(k) ==>
                  o.reason == "SYSTEM_ONE_PROVIDER_MISMATCH")
  {
    if k.enabled && state.HasState? && RemainingBudget(state.state) >= 0.0 {
      CandidatesExist(k, q, state);
    }
  }

  lemma ChoiceReasons(k: Controller, q: RuntimeRequest, d: Detail, c: ActionCandidate, bound: Cvoc.Bound, requested: Option<DeliberatorAnswer>)
    ensures var o := WithChoice(k, q, d, c, bound, requested);
            && (Refused(k.firewall, c) ==> o.reason == "VERIFICATION_REJECTED" && o.route == Deterministic)
            && (!Refused(k.firewall, c) && !Vouched(k.firewall, c) ==> o.reason == "VERIFIER_FAILURE" && o.route == Deterministic)
            && (Vouched(k.firewall, c) && c.family != Deliberate && c.riskClass != ReadOnly ==>
                  o.reason == "EFFECT_EXECUTION_UNAVAILABLE" && o.route == Deterministic && o.lowerBound == Some(bound))
  {
    VouchedMeans(k, c);
    RefusedMeans(k, c);
  }

  /** A run that reaches its choice declines it for exactly these reasons: the verifier rejects it,
      the verifier fails, or it would have an effect. */
  lemma DeclinesExactlyWhen(k: Controller, q: RuntimeRequest, state: StateOutcome, fast: FastAnswer, requested: Option<DeliberatorAnswer>, c: ActionCandidate)
    requires k.perFamilyCap >= 1 && HasCandidates(k, q, state) && LetsThrough(k, q, fast) && Chosen(k, q, state, c)
    ensures var o := RunSpec(k, q, state, fast, requested);
            && (Refused(k.firewall, c) ==> o.reason == "VERIFICATION_REJECTED" && o.route == Deterministic)
            && (!Refused(k.firewall, c) && !Vouched(k.firewall, c) ==> o.reason == "VERIFIER_FAILURE" && o.route == Deterministic)
            && (Vouched(k.firewall, c) && c.family != Deliberate && c.riskClass != ReadOnly ==>
                  o.reason == "EFFECT_EXECUTION_UNAVAILABLE" && o.route == Deterministic)
  {
    GatePasses(k, q, state, fast);
    var passed, choice := EntryGate(k, q, state, fast).fast, Choice(k, q, state.state);
    ChoiceReasons(k, q, BARE.(candidateIds := Ids(Candidates(k, q, state.state)), fast := passed), c, choice.lowerBound, requested);
  }

  /** The candidates of a run carry definitions of the request in an available family, permitted and
      affordable, with a verifier the firewall knows; they are compiled with width one, the cap as
      the only other limit, a margin of 0.05 and no placement restriction. */
  lemma CompiledWithDefaults(k: Controller, q: RuntimeRequest, s: CompiledState, c: ActionCandidate)
    returns (d: ActionDefinition, arguments: seq<(string, string)>, placement: string, verifier: string)
    requires k.perFamilyCap >= 1 && RemainingBudget(s) >= 0.0 && Laws.DistinctIds(q.definitions) && c in Candidates(k, q, s)
    ensures d in q.definitions && d.family in s.families && d.estimatedCost <= RemainingBudget(s) && d.optimisticUtility >= 0.0
    ensures d.family in q.policy.allowedFamilies && d.riskClass in q.policy.allowedRisks && d.dataBoundary in q.policy.allowedDataBoundaries
    ensures Candidate.Carries(c, d, arguments, placement, verifier) && Candidate.Offers(d, arguments) && Candidate.WellFormed(d, arguments)
    ensures verifier in d.verifierIds && verifier in k.firewall.verifiers
    ensures var r := CompileRequest(k, q, s);
            r.initialWidth == 1 && Compiler.WidthLimit(k.perFamilyCap, r) == k.perFamilyCap && r.wideningMargin == 0.05 && r.allowedPlacements.None?
  {
    CompilationSucceeds(k, q, s);
    InFamiliesMembers(q.definitions, s.families);
    d, arguments, placement, verifier := Candidate.EveryCandidateCarriesItsDefinition(Catalogue(q, s), k.perFamilyCap, CompileRequest(k, q, s), c);
  }
}
