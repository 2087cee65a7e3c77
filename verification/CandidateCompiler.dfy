/** Hierarchical candidate compilation (c3r/candidate_compiler.py): mask, prune, group,
    rank and widen at two levels, then expand a five-deep product up to a cap. */
module CandidateCompiler {
  import opened Schema
  import opened Ranking
  import opened ProgressiveWidening

  datatype Request = Request(
    policy: AuthorityPolicy,
    remainingBudget: real,
    allowedVerifiers: set<string>,
    allowedPlacements: Option<set<string>>,
    initialWidth: int,
    maximumWidth: Option<int>,
    wideningMargin: real,
    minimumOptimisticUtility: real)

  datatype Compilation = Compilation(
    candidates: seq<ActionCandidate>,
    maskedIds: seq<string>,
    noSafeAction: bool,
    prunedIds: seq<string>,
    widenedFamilies: seq<ActionFamily>)

  datatype CompileError = NegativeBudget | NonPositiveInitialWidth | InvalidWideningBounds

  datatype Result = Ok(compilation: Compilation) | Err(error: CompileError)

  // ----- Masking and pruning

  function Variants(d: ActionDefinition): seq<seq<(string, string)>> {
    if d.argumentVariants == [] then [[]] else d.argumentVariants
  }

  function Placements(d: ActionDefinition): seq<string> {
    if d.placements == [] then ["default"] else d.placements
  }

  predicate ArgumentsValid(d: ActionDefinition, variant: seq<(string, string)>) {
    && (forall i, j :: 0 <= i < j < |variant| ==> variant[i].0 != variant[j].0)
    && (forall key :: key in d.requiredArgumentKeys ==> exists i :: 0 <= i < |variant| && variant[i].0 == key)
    && (d.allowedArgumentKeys == {} || forall i :: 0 <= i < |variant| ==> variant[i].0 in d.allowedArgumentKeys)
    && (forall i :: 0 <= i < |variant| ==> variant[i].0 != "" && variant[i].1 != "")
  }

  function Skeleton(d: ActionDefinition): ActionCandidate {
    ActionCandidate(d.id, d.family, d.riskClass, d.optimisticUtility, None, [])
  }

  predicate Masked(d: ActionDefinition, q: Request) {
    || !q.policy.Permits(Skeleton(d))
    || d.dataBoundary !in q.policy.allowedDataBoundaries
    || !d.provenanceComplete
    || !(forall i :: 0 <= i < |Variants(d)| ==> ArgumentsValid(d, Variants(d)[i]))
    || !(q.allowedPlacements == None || forall i :: 0 <= i < |Placements(d)| ==> Placements(d)[i] in q.allowedPlacements.value)
    || !(exists i :: 0 <= i < |d.verifierIds| && d.verifierIds[i] in q.allowedVerifiers)
  }

  predicate Pruned(d: ActionDefinition, q: Request) {
    !Masked(d, q) && (d.estimatedCost > q.remainingBudget || d.optimisticUtility < q.minimumOptimisticUtility)
  }

  predicate Survives(d: ActionDefinition, q: Request) {
    !Masked(d, q) && !Pruned(d, q)
  }

  function MaskedIds(defs: seq<ActionDefinition>, q: Request): seq<string> {
    if defs == [] then []
    else
      var d := defs[|defs| - 1];
      MaskedIds(defs[..|defs| - 1], q) + (if Masked(d, q) then [d.id] else [])
  }

  function PrunedIds(defs: seq<ActionDefinition>, q: Request): seq<string> {
    if defs == [] then []
    else
      var d := defs[|defs| - 1];
      PrunedIds(defs[..|defs| - 1], q) + (if Pruned(d, q) then [d.id] else [])
  }

  function FamilyDefinitions(defs: seq<ActionDefinition>, family: ActionFamily, q: Request): seq<ActionDefinition> {
    if defs == [] then []
    else
      var d := defs[|defs| - 1];
      FamilyDefinitions(defs[..|defs| - 1], family, q) + (if Survives(d, q) && d.family == family then [d] else [])
  }

  // ----- Subgroups and operations of one family

  function NetUtility(d: ActionDefinition): real {
    d.optimisticUtility - d.estimatedCost
  }

  function SubgroupNames(items: seq<ActionDefinition>): seq<string> {
    if items == [] then []
    else
      var rest := SubgroupNames(items[..|items| - 1]);
      var name := items[|items| - 1].subgroup;
      if name in rest then rest else rest + [name]
  }

  function InSubgroup(items: seq<ActionDefinition>, name: string): seq<ActionDefinition> {
    if items == [] then []
    else
      var d := items[|items| - 1];
      InSubgroup(items[..|items| - 1], name) + (if d.subgroup == name then [d] else [])
  }

  function LeastRisk(items: seq<ActionDefinition>): RiskClass
    requires items != []
  {
    var last := items[|items| - 1].riskClass;
    if |items| == 1 then last
    else
      var rest := LeastRisk(items[..|items| - 1]);
      if StringLess(RiskValue(last), RiskValue(rest)) then last else rest
  }

  function BestNet(items: seq<ActionDefinition>): real
    requires items != []
  {
    var last := NetUtility(items[|items| - 1]);
    if |items| == 1 then last
    else
      var rest := BestNet(items[..|items| - 1]);
      if last > rest then last else rest
  }

  function SubgroupSkeleton(items: seq<ActionDefinition>, family: ActionFamily, name: string): ActionCandidate {
    var members := InSubgroup(items, name);
    if members == [] then ActionCandidate(name, family, ReadOnly, 0.0, None, [])
    else ActionCandidate(name, family, LeastRisk(members), BestNet(members), None, [])
  }

  function SubgroupSkeletons(items: seq<ActionDefinition>, family: ActionFamily, names: seq<string>): seq<ActionCandidate> {
    if names == [] then []
    else SubgroupSkeletons(items, family, names[..|names| - 1]) + [SubgroupSkeleton(items, family, names[|names| - 1])]
  }

  function OperationSkeleton(d: ActionDefinition): ActionCandidate {
    ActionCandidate(d.id, d.family, d.riskClass, NetUtility(d), None, [])
  }

  function OperationSkeletons(items: seq<ActionDefinition>): seq<ActionCandidate> {
    if items == [] then []
    else OperationSkeletons(items[..|items| - 1]) + [OperationSkeleton(items[|items| - 1])]
  }

  /** `definitions_by_id[id]`: the last definition with that id. */
  function DefinitionOf(items: seq<ActionDefinition>, id: string): Option<ActionDefinition> {
    if items == [] then None
    else if items[|items| - 1].id == id then Some(items[|items| - 1])
    else DefinitionOf(items[..|items| - 1], id)
  }

  // ----- The full product

  function Decimal(n: nat): string {
    if n < 10 then ["0123456789"[n]] else Decimal(n / 10) + ["0123456789"[n % 10]]
  }

  function Candidate(d: ActionDefinition, skeleton: ActionCandidate, index: nat, arguments: seq<(string, string)>,
                     placement: string, verifier: string): ActionCandidate {
    skeleton.(id := d.id + ":" + Decimal(index) + ":" + placement + ":" + verifier,
              requestedVerifier := Some(verifier),
              payload := [("subgroup", d.subgroup), ("operation", d.operation), ("placement", placement)] + arguments)
  }

  function AllowedVerifiers(ids: seq<string>, allowed: set<string>): seq<string> {
    if ids == [] then []
    else
      var v := ids[|ids| - 1];
      AllowedVerifiers(ids[..|ids| - 1], allowed) + (if v in allowed then [v] else [])
  }

  function OverVerifiers(d: ActionDefinition, skeleton: ActionCandidate, index: nat, arguments: seq<(string, string)>,
                         placement: string, verifiers: seq<string>): seq<ActionCandidate> {
    if verifiers == [] then []
    else
      OverVerifiers(d, skeleton, index, arguments, placement, verifiers[..|verifiers| - 1])
      + [Candidate(d, skeleton, index, arguments, placement, verifiers[|verifiers| - 1])]
  }

  function OverPlacements(d: ActionDefinition, skeleton: ActionCandidate, index: nat, arguments: seq<(string, string)>,
                          placements: seq<string>, verifiers: seq<string>): seq<ActionCandidate> {
    if placements == [] then []
    else
      OverPlacements(d, skeleton, index, arguments, placements[..|placements| - 1], verifiers)
      + OverVerifiers(d, skeleton, index, arguments, placements[|placements| - 1], verifiers)
  }

  function OverVariants(d: ActionDefinition, skeleton: ActionCandidate, variants: seq<seq<(string, string)>>,
                        placements: seq<string>, verifiers: seq<string>): seq<ActionCandidate> {
    if variants == [] then []
    else
      OverVariants(d, skeleton, variants[..|variants| - 1], placements, verifiers)
      + OverPlacements(d, skeleton, |variants| - 1, variants[|variants| - 1], placements, verifiers)
  }

  function Expansion(d: ActionDefinition, skeleton: ActionCandidate, q: Request): seq<ActionCandidate> {
    OverVariants(d, skeleton, Variants(d), Placements(d), AllowedVerifiers(d.verifierIds, q.allowedVerifiers))
  }

  function OverOperations(items: seq<ActionDefinition>, operations: seq<ActionCandidate>, q: Request): seq<ActionCandidate> {
    if operations == [] then []
    else
      var skeleton := operations[|operations| - 1];
      OverOperations(items, operations[..|operations| - 1], q)
      + match DefinitionOf(items, skeleton.id)
        case None => []
        case Some(d) => Expansion(d, skeleton, q)
  }

  function WidthLimit(cap: nat, q: Request): int {
    Min(if q.maximumWidth == None || q.maximumWidth == Some(0) then cap else q.maximumWidth.value, cap)
  }

  function Select(skeletons: seq<ActionCandidate>, cap: nat, q: Request): seq<ActionCandidate> {
    Widened(skeletons, q.initialWidth, WidthLimit(cap, q), q.wideningMargin)
  }

  function SelectedOperations(items: seq<ActionDefinition>, name: string, cap: nat, q: Request): seq<ActionCandidate> {
    Select(OperationSkeletons(InSubgroup(items, name)), cap, q)
  }

  function SelectedSubgroups(items: seq<ActionDefinition>, family: ActionFamily, cap: nat, q: Request): seq<ActionCandidate> {
    Select(SubgroupSkeletons(items, family, SubgroupNames(items)), cap, q)
  }

  function OverSubgroups(items: seq<ActionDefinition>, subgroups: seq<ActionCandidate>, cap: nat, q: Request): seq<ActionCandidate> {
    if subgroups == [] then []
    else
      var name := subgroups[|subgroups| - 1].id;
      OverSubgroups(items, subgroups[..|subgroups| - 1], cap, q)
      + OverOperations(InSubgroup(items, name), SelectedOperations(items, name, cap, q), q)
  }

  /** Everything the selected subgroups and operations of a family expand to, in ranked order. */
  function FamilyProduct(items: seq<ActionDefinition>, family: ActionFamily, cap: nat, q: Request): seq<ActionCandidate> {
    OverSubgroups(items, SelectedSubgroups(items, family, cap, q), cap, q)
  }

  function Take<T>(s: seq<T>, n: nat): seq<T> {
    if |s| <= n then s else s[..n]
  }

  predicate OperationsWiden(items: seq<ActionDefinition>, name: string, cap: nat, q: Request) {
    |SelectedOperations(items, name, cap, q)| > Min(q.initialWidth, |InSubgroup(items, name)|)
  }

  /** The capped loop reaches subgroup `k` before it is full, and widens its operations. */
  predicate ReachedAndWidens(items: seq<ActionDefinition>, subgroups: seq<ActionCandidate>, cap: nat, q: Request, k: nat)
    requires k < |subgroups|
  {
    |OverSubgroups(items, subgroups[..k], cap, q)| < cap && OperationsWiden(items, subgroups[k].id, cap, q)
  }

  predicate ReachedWiden(items: seq<ActionDefinition>, subgroups: seq<ActionCandidate>, cap: nat, q: Request, n: nat)
    requires n <= |subgroups|
  {
    exists k :: 0 <= k < n && ReachedAndWidens(items, subgroups, cap, q, k)
  }

  predicate FamilyWidens(items: seq<ActionDefinition>, family: ActionFamily, cap: nat, q: Request) {
    || |SelectedSubgroups(items, family, cap, q)| > Min(q.initialWidth, |SubgroupNames(items)|)
    || ReachedWiden(items, SelectedSubgroups(items, family, cap, q), cap, q, |SelectedSubgroups(items, family, cap, q)|)
  }

  /** The families in the order of their wire values. */
  const FAMILY_ORDER: seq<ActionFamily> :=
    [AskUser, Deliberate, DirectTypedAction, FrontierModel, LocalModel, Retrieval, Stop, Tool, Verify]

  /** The first `cap` candidates of a family's product. */
  function FamilySlice(defs: seq<ActionDefinition>, cap: nat, q: Request, family: ActionFamily): seq<ActionCandidate> {
    Take(FamilyProduct(FamilyDefinitions(defs, family, q), family, cap, q), cap)
  }

  /** The family itself if it widens. */
  function WidenedSlice(defs: seq<ActionDefinition>, cap: nat, q: Request, family: ActionFamily): seq<ActionFamily> {
    if FamilyWidens(FamilyDefinitions(defs, family, q), family, cap, q) then [family] else []
  }

  function CandidatesOver(defs: seq<ActionDefinition>, cap: nat, q: Request, order: seq<ActionFamily>): seq<ActionCandidate> {
    if order == [] then []
    else
      CandidatesOver(defs, cap, q, order[..|order| - 1]) + FamilySlice(defs, cap, q, order[|order| - 1])
  }

  function WidenedOver(defs: seq<ActionDefinition>, cap: nat, q: Request, order: seq<ActionFamily>): seq<ActionFamily> {
    if order == [] then []
    else
      WidenedOver(defs, cap, q, order[..|order| - 1]) + WidenedSlice(defs, cap, q, order[|order| - 1])
  }

  predicate SomeSurvivor(defs: seq<ActionDefinition>, q: Request) {
    exists i :: 0 <= i < |defs| && Survives(defs[i], q)
  }

  function Compiled(defs: seq<ActionDefinition>, cap: nat, q: Request): Compilation {
    var candidates := CandidatesOver(defs, cap, q, FAMILY_ORDER);
    Compilation(candidates, MaskedIds(defs, q), candidates == [], PrunedIds(defs, q),
                WidenedOver(defs, cap, q, FAMILY_ORDER))
  }

  /** The errors of `compile_hierarchical`, or else its compilation. */
  function OutcomeOf(someSurvivor: bool, cap: nat, q: Request, compilation: Compilation): Result {
    if q.remainingBudget < 0.0 then Err(NegativeBudget)
    else if q.initialWidth < 1 then Err(NonPositiveInitialWidth)
    else if someSurvivor && !ValidBounds(q.initialWidth, WidthLimit(cap, q)) then Err(InvalidWideningBounds)
    else Ok(compilation)
  }

  /** The result of `compile_hierarchical`. */
  function CompileSpec(defs: seq<ActionDefinition>, cap: nat, q: Request): Result {
    OutcomeOf(SomeSurvivor(defs, q), cap, q, Compiled(defs, cap, q))
  }

  // ----- The loops of the source

  /** `part` is `whole` cut off at `cap`. */
  predicate CutOff<T(==)>(part: seq<T>, whole: seq<T>, cap: nat) {
    part <= whole && |part| <= cap && (|part| < cap ==> part == whole)
  }

  lemma CutOffIsTake<T>(part: seq<T>, whole: seq<T>, cap: nat)
    requires CutOff(part, whole, cap)
    ensures part == Take(whole, cap)
  {
    if |part| == cap {
      assert whole[..cap] == part;
    }
  }

  lemma TakeAll<T>(s: seq<T>)
    ensures s[..|s|] == s
  {
  }

  lemma PrefixTransitive<T>(a: seq<T>, b: seq<T>, c: seq<T>)
    requires a <= b && b <= c
    ensures a <= c
  {
  }

  /** Collecting `more` after `done`. */
  lemma CutOffStep<T>(base: seq<T>, done: seq<T>, part: seq<T>, more: seq<T>, cap: nat)
    requires CutOff(part, (base + done) + more, cap)
    ensures CutOff(part, base + (done + more), cap)
  {
    assert (base + done) + more == base + (done + more);
  }

  /** A loop that stopped after `done` either visited everything or was full. */
  lemma CutOffEnds<T>(base: seq<T>, part: seq<T>, done: seq<T>, whole: seq<T>, cap: nat)
    requires CutOff(part, base + done, cap) && done <= whole && (|part| < cap ==> done == whole)
    ensures CutOff(part, base + whole, cap)
  {
    assert base + done <= base + whole;
  }

  // The five nested loops, one method per level; each breaks as soon as the cap is reached.

  method ExpandVerifiers(collected: seq<ActionCandidate>, d: ActionDefinition, skeleton: ActionCandidate, index: nat,
                         arguments: seq<(string, string)>, placement: string, verifiers: seq<string>, cap: nat)
    returns (familyCandidates: seq<ActionCandidate>)
    requires |collected| < cap
    ensures CutOff(familyCandidates, collected + OverVerifiers(d, skeleton, index, arguments, placement, verifiers), cap)
  {
    familyCandidates := collected;
    var k := 0;
    while k < |verifiers|
      invariant 0 <= k <= |verifiers|
      invariant familyCandidates == collected + OverVerifiers(d, skeleton, index, arguments, placement, verifiers[..k])
      invariant |familyCandidates| < cap
    {
      assert verifiers[..k + 1][..k] == verifiers[..k];
      familyCandidates := familyCandidates + [Candidate(d, skeleton, index, arguments, placement, verifiers[k])];
      k := k + 1;
      if |familyCandidates| >= cap {
        break;
      }
    }
    VerifiersPrefix(d, skeleton, index, arguments, placement, verifiers, k);
    assert verifiers[..|verifiers|] == verifiers;
  }

  method ExpandPlacements(collected: seq<ActionCandidate>, d: ActionDefinition, skeleton: ActionCandidate, index: nat,
                          arguments: seq<(string, string)>, placements: seq<string>, verifiers: seq<string>, cap: nat)
    returns (familyCandidates: seq<ActionCandidate>)
    requires |collected| < cap
    ensures CutOff(familyCandidates, collected + OverPlacements(d, skeleton, index, arguments, placements, verifiers), cap)
  {
    familyCandidates := collected;
    var k := 0;
    while k < |placements|
      invariant 0 <= k <= |placements|
      invariant familyCandidates == collected + OverPlacements(d, skeleton, index, arguments, placements[..k], verifiers)
      invariant |familyCandidates| < cap
    {
      PlacementsStep(d, skeleton, index, arguments, placements, verifiers, k);
      ghost var done := OverPlacements(d, skeleton, index, arguments, placements[..k], verifiers);
      familyCandidates := ExpandVerifiers(familyCandidates, d, skeleton, index, arguments, placements[k], verifiers, cap);
      CutOffStep(collected, done, familyCandidates, OverVerifiers(d, skeleton, index, arguments, placements[k], verifiers), cap);
      k := k + 1;
      if |familyCandidates| >= cap {
        break;
      }
    }
    PlacementsPrefix(d, skeleton, index, arguments, placements, verifiers, k);
    TakeAll(placements);
    CutOffEnds(collected, familyCandidates, OverPlacements(d, skeleton, index, arguments, placements[..k], verifiers),
               OverPlacements(d, skeleton, index, arguments, placements, verifiers), cap);
  }

  method ExpandOperation(collected: seq<ActionCandidate>, d: ActionDefinition, skeleton: ActionCandidate, cap: nat, q: Request)
    returns (familyCandidates: seq<ActionCandidate>)
    requires |collected| < cap
    ensures CutOff(familyCandidates, collected + Expansion(d, skeleton, q), cap)
  {
    familyCandidates := collected;
    var verifiers := AllowedVerifiers(d.verifierIds, q.allowedVerifiers);
    var variants := Variants(d);
    var placements := Placements(d);
    var k := 0;
    while k < |variants|
      invariant 0 <= k <= |variants|
      invariant familyCandidates == collected + OverVariants(d, skeleton, variants[..k], placements, verifiers)
      invariant |familyCandidates| < cap
    {
      VariantsStep(d, skeleton, variants, placements, verifiers, k);
      ghost var done := OverVariants(d, skeleton, variants[..k], placements, verifiers);
      familyCandidates := ExpandPlacements(familyCandidates, d, skeleton, k, variants[k], placements, verifiers, cap);
      CutOffStep(collected, done, familyCandidates, OverPlacements(d, skeleton, k, variants[k], placements, verifiers), cap);
      k := k + 1;
      if |familyCandidates| >= cap {
        break;
      }
    }
    VariantsPrefix(d, skeleton, variants, placements, verifiers, k);
    TakeAll(variants);
    CutOffEnds(collected, familyCandidates, OverVariants(d, skeleton, variants[..k], placements, verifiers),
               OverVariants(d, skeleton, variants, placements, verifiers), cap);
  }

  method ExpandOperations(collected: seq<ActionCandidate>, items: seq<ActionDefinition>, operations: seq<ActionCandidate>, cap: nat, q: Request)
    returns (familyCandidates: seq<ActionCandidate>)
    requires |collected| < cap
    requires forall i :: 0 <= i < |operations| ==> DefinitionOf(items, operations[i].id).Some?
    ensures CutOff(familyCandidates, collected + OverOperations(items, operations, q), cap)
  {
    familyCandidates := collected;
    var k := 0;
    while k < |operations|
      invariant 0 <= k <= |operations|
      invariant familyCandidates == collected + OverOperations(items, operations[..k], q)
      invariant |familyCandidates| < cap
    {
      OperationsStep(items, operations, q, k);
      var d := DefinitionOf(items, operations[k].id).value;
      ghost var done := OverOperations(items, operations[..k], q);
      familyCandidates := ExpandOperation(familyCandidates, d, operations[k], cap, q);
      CutOffStep(collected, done, familyCandidates, Expansion(d, operations[k], q), cap);
      k := k + 1;
      if |familyCandidates| >= cap {
        break;
      }
    }
    OperationsPrefix(items, operations, q, k);
    TakeAll(operations);
    CutOffEnds(collected, familyCandidates, OverOperations(items, operations[..k], q), OverOperations(items, operations, q), cap);
  }

  lemma ReachedStep(items: seq<ActionDefinition>, subgroups: seq<ActionCandidate>, cap: nat, q: Request, k: nat)
    requires k < |subgroups|
    ensures ReachedWiden(items, subgroups, cap, q, k + 1)
         == (ReachedWiden(items, subgroups, cap, q, k) || ReachedAndWidens(items, subgroups, cap, q, k))
  {
  }

  /** What the loop over the selected subgroups has collected after the first `k`. */
  predicate SubgroupsDone(items: seq<ActionDefinition>, selected: seq<ActionCandidate>, cap: nat, q: Request, k: nat,
                          part: seq<ActionCandidate>, reachedWiden: bool)
    requires k <= |selected|
  {
    CutOff(part, OverSubgroups(items, selected[..k], cap, q), cap) && reachedWiden == ReachedWiden(items, selected, cap, q, k)
  }

  /** One turn of the loop over the selected subgroups: widen its operations and expand them. */
  method ExpandSubgroup(items: seq<ActionDefinition>, members: seq<ActionDefinition>, selected: seq<ActionCandidate>, cap: nat, q: Request,
                        ghost k: nat, collected: seq<ActionCandidate>, reachedWiden: bool)
    returns (familyCandidates: seq<ActionCandidate>, widens: bool)
    requires cap >= 1 && ValidBounds(q.initialWidth, WidthLimit(cap, q))
    requires k < |selected| && members == InSubgroup(items, selected[k].id)
    requires |collected| < cap && SubgroupsDone(items, selected, cap, q, k, collected, reachedWiden)
    ensures SubgroupsDone(items, selected, cap, q, k + 1, familyCandidates, widens)
  {
    SubgroupsStep(items, selected, cap, q, k);
    ReachedStep(items, selected, cap, q, k);
    widens := reachedWiden;
    var operations := WidenWhenMarginIsSmall(OperationSkeletons(members), q.initialWidth, WidthLimit(cap, q), q.wideningMargin);
    OperationsLength(members);
    if |operations.value| > Min(q.initialWidth, |OperationSkeletons(members)|) {
      widens := true;
    }
    SelectedOperationsDefined(members, operations.value, cap, q);
    familyCandidates := ExpandOperations(collected, members, operations.value, cap, q);
  }

  /** The outer two levels, with the widening of each subgroup's operations. */
  method CompileFamily(items: seq<ActionDefinition>, family: ActionFamily, cap: nat, q: Request)
    returns (familyCandidates: seq<ActionCandidate>, widens: bool)
    requires cap >= 1 && ValidBounds(q.initialWidth, WidthLimit(cap, q))
    ensures familyCandidates == Take(FamilyProduct(items, family, cap, q), cap)
    ensures widens == FamilyWidens(items, family, cap, q)
  {
    var names, bySubgroup := GroupBySubgroup(items);
    var skeletons := SubgroupSkeletons(items, family, names);
    SkeletonsLength(items, family, names);
    var chosen := WidenWhenMarginIsSmall(skeletons, q.initialWidth, WidthLimit(cap, q), q.wideningMargin);
    var selected := chosen.value;
    var reachedWiden := false;
    familyCandidates := [];
    var k := 0;
    while k < |selected|
      invariant 0 <= k <= |selected| && |familyCandidates| < cap
      invariant SubgroupsDone(items, selected, cap, q, k, familyCandidates, reachedWiden)
    {
      SelectedNamesOccur(items, family, selected, cap, q, k);
      familyCandidates, reachedWiden :=
        ExpandSubgroup(items, bySubgroup[selected[k].id], selected, cap, q, k, familyCandidates, reachedWiden);
      k := k + 1;
      if |familyCandidates| >= cap {
        break;
      }
    }
    widens := |selected| > Min(q.initialWidth, |skeletons|) || reachedWiden;
    SubgroupsEnd(items, selected, cap, q, k, familyCandidates, reachedWiden);
  }

  lemma SubgroupsEnd(items: seq<ActionDefinition>, selected: seq<ActionCandidate>, cap: nat, q: Request, k: nat,
                     part: seq<ActionCandidate>, reachedWiden: bool)
    requires k <= |selected| && (k == |selected| || |part| >= cap)
    requires SubgroupsDone(items, selected, cap, q, k, part, reachedWiden)
    ensures part == Take(OverSubgroups(items, selected, cap, q), cap)
    ensures reachedWiden == ReachedWiden(items, selected, cap, q, |selected|)
  {
    TakeAll(selected);
    if k < |selected| {
      SubgroupsPrefix(items, selected, cap, q, k);
      PrefixTransitive(part, OverSubgroups(items, selected[..k], cap, q), OverSubgroups(items, selected, cap, q));
      LaterNotReached(items, selected, cap, q, k, |selected|);
    }
    CutOffIsTake(part, OverSubgroups(items, selected, cap, q), cap);
  }

  lemma FullLater(items: seq<ActionDefinition>, subgroups: seq<ActionCandidate>, cap: nat, q: Request, n: nat, m: nat)
    requires n <= m <= |subgroups| && |OverSubgroups(items, subgroups[..n], cap, q)| >= cap
    ensures |OverSubgroups(items, subgroups[..m], cap, q)| >= cap
  {
    assert subgroups[..m][..n] == subgroups[..n];
    SubgroupsPrefix(items, subgroups[..m], cap, q, n);
  }

  lemma LaterNotReached(items: seq<ActionDefinition>, subgroups: seq<ActionCandidate>, cap: nat, q: Request, n: nat, m: nat)
    requires n <= m <= |subgroups| && |OverSubgroups(items, subgroups[..n], cap, q)| >= cap
    ensures ReachedWiden(items, subgroups, cap, q, m) == ReachedWiden(items, subgroups, cap, q, n)
  {
    forall k | n <= k < m
      ensures !ReachedAndWidens(items, subgroups, cap, q, k)
    {
      FullLater(items, subgroups, cap, q, n, k);
    }
  }

  /** `by_subgroup`, with its keys in insertion order. */
  method GroupBySubgroup(items: seq<ActionDefinition>) returns (names: seq<string>, bySubgroup: map<string, seq<ActionDefinition>>)
    ensures names == SubgroupNames(items)
    ensures forall name :: name in bySubgroup <==> name in names
    ensures forall name :: name in bySubgroup ==> bySubgroup[name] == InSubgroup(items, name)
  {
    names, bySubgroup := [], map[];
    for i := 0 to |items|
      invariant names == SubgroupNames(items[..i])
      invariant forall name :: name in bySubgroup <==> name in names
      invariant forall name :: InSubgroup(items[..i], name) == if name in bySubgroup then bySubgroup[name] else []
    {
      GroupingStep(items, i);
      var name := items[i].subgroup;
      if name in bySubgroup {
        bySubgroup := bySubgroup[name := bySubgroup[name] + [items[i]]];
      } else {
        names, bySubgroup := names + [name], bySubgroup[name := [items[i]]];
      }
    }
    assert items[..|items|] == items;
  }

  lemma {:induction false} VerifiersPrefix(d: ActionDefinition, skeleton: ActionCandidate, index: nat, arguments: seq<(string, string)>,
                                           placement: string, verifiers: seq<string>, k: nat)
    requires k <= |verifiers|
    ensures OverVerifiers(d, skeleton, index, arguments, placement, verifiers[..k])
         <= OverVerifiers(d, skeleton, index, arguments, placement, verifiers)
  {
    if k == |verifiers| {
      assert verifiers[..k] == verifiers;
    } else {
      assert verifiers[..|verifiers| - 1][..k] == verifiers[..k];
      VerifiersPrefix(d, skeleton, index, arguments, placement, verifiers[..|verifiers| - 1], k);
    }
  }

  lemma {:induction false} PlacementsPrefix(d: ActionDefinition, skeleton: ActionCandidate, index: nat, arguments: seq<(string, string)>,
                                            placements: seq<string>, verifiers: seq<string>, k: nat)
    requires k <= |placements|
    ensures OverPlacements(d, skeleton, index, arguments, placements[..k], verifiers)
         <= OverPlacements(d, skeleton, index, arguments, placements, verifiers)
  {
    if k == |placements| {
      assert placements[..k] == placements;
    } else {
      assert placements[..|placements| - 1][..k] == placements[..k];
      PlacementsPrefix(d, skeleton, index, arguments, placements[..|placements| - 1], verifiers, k);
    }
  }

  lemma PlacementsStep(d: ActionDefinition, skeleton: ActionCandidate, index: nat, arguments: seq<(string, string)>,
                       placements: seq<string>, verifiers: seq<string>, k: nat)
    requires k < |placements|
    ensures OverPlacements(d, skeleton, index, arguments, placements[..k + 1], verifiers)
         == OverPlacements(d, skeleton, index, arguments, placements[..k], verifiers)
          + OverVerifiers(d, skeleton, index, arguments, placements[k], verifiers)
  {
    assert placements[..k + 1][..k] == placements[..k];
  }

  lemma VariantsStep(d: ActionDefinition, skeleton: ActionCandidate, variants: seq<seq<(string, string)>>,
                     placements: seq<string>, verifiers: seq<string>, k: nat)
    requires k < |variants|
    ensures OverVariants(d, skeleton, variants[..k + 1], placements, verifiers)
         == OverVariants(d, skeleton, variants[..k], placements, verifiers)
          + OverPlacements(d, skeleton, k, variants[k], placements, verifiers)
  {
    assert variants[..k + 1][..k] == variants[..k];
  }

  lemma {:induction false} VariantsPrefix(d: ActionDefinition, skeleton: ActionCandidate, variants: seq<seq<(string, string)>>,
                                          placements: seq<string>, verifiers: seq<string>, k: nat)
    requires k <= |variants|
    ensures OverVariants(d, skeleton, variants[..k], placements, verifiers)
         <= OverVariants(d, skeleton, variants, placements, verifiers)
  {
    if k == |variants| {
      assert variants[..k] == variants;
    } else {
      assert variants[..|variants| - 1][..k] == variants[..k];
      VariantsPrefix(d, skeleton, variants[..|variants| - 1], placements, verifiers, k);
    }
  }

  lemma OperationsStep(items: seq<ActionDefinition>, operations: seq<ActionCandidate>, q: Request, k: nat)
    requires k < |operations| && DefinitionOf(items, operations[k].id).Some?
    ensures OverOperations(items, operations[..k + 1], q)
         == OverOperations(items, operations[..k], q) + Expansion(DefinitionOf(items, operations[k].id).value, operations[k], q)
  {
    assert operations[..k + 1][..k] == operations[..k];
  }

  lemma SubgroupsStep(items: seq<ActionDefinition>, subgroups: seq<ActionCandidate>, cap: nat, q: Request, k: nat)
    requires k < |subgroups|
    ensures OverSubgroups(items, subgroups[..k + 1], cap, q)
         == OverSubgroups(items, subgroups[..k], cap, q)
          + OverOperations(InSubgroup(items, subgroups[k].id), SelectedOperations(items, subgroups[k].id, cap, q), q)
  {
    assert subgroups[..k + 1][..k] == subgroups[..k];
  }

  lemma GroupingStep(items: seq<ActionDefinition>, i: nat)
    requires i < |items|
    ensures SubgroupNames(items[..i + 1])
         == SubgroupNames(items[..i]) + (if items[i].subgroup in SubgroupNames(items[..i]) then [] else [items[i].subgroup])
    ensures forall name ::
              InSubgroup(items[..i + 1], name) == InSubgroup(items[..i], name) + (if items[i].subgroup == name then [items[i]] else [])
  {
    assert items[..i + 1][..i] == items[..i];
  }

  lemma {:induction false} OperationsPrefix(items: seq<ActionDefinition>, operations: seq<ActionCandidate>, q: Request, k: nat)
    requires k <= |operations|
    ensures OverOperations(items, operations[..k], q) <= OverOperations(items, operations, q)
  {
    if k == |operations| {
      assert operations[..k] == operations;
    } else {
      assert operations[..|operations| - 1][..k] == operations[..k];
      OperationsPrefix(items, operations[..|operations| - 1], q, k);
    }
  }

  lemma {:induction false} SubgroupsPrefix(items: seq<ActionDefinition>, subgroups: seq<ActionCandidate>, cap: nat, q: Request, k: nat)
    requires k <= |subgroups|
    ensures OverSubgroups(items, subgroups[..k], cap, q) <= OverSubgroups(items, subgroups, cap, q)
  {
    if k == |subgroups| {
      assert subgroups[..k] == subgroups;
    } else {
      assert subgroups[..|subgroups| - 1][..k] == subgroups[..k];
      SubgroupsPrefix(items, subgroups[..|subgroups| - 1], cap, q, k);
    }
  }

  lemma SkeletonsGrow(items: seq<ActionDefinition>, family: ActionFamily, names: seq<string>)
    requires names != []
    ensures SubgroupSkeletons(items, family, names)
         == SubgroupSkeletons(items, family, names[..|names| - 1]) + [SubgroupSkeleton(items, family, names[|names| - 1])]
  {
  }

  lemma {:induction false} SkeletonsLength(items: seq<ActionDefinition>, family: ActionFamily, names: seq<string>)
    ensures |SubgroupSkeletons(items, family, names)| == |names|
    ensures forall i :: 0 <= i < |names| ==> SubgroupSkeletons(items, family, names)[i] == SubgroupSkeleton(items, family, names[i])
  {
    if names != [] {
      var init, s := names[..|names| - 1], SubgroupSkeletons(items, family, names);
      SkeletonsLength(items, family, init);
      SkeletonsGrow(items, family, names);
      forall i | 0 <= i < |names|
        ensures s[i] == SubgroupSkeleton(items, family, names[i])
      {
        assert i < |init| ==> s[i] == SubgroupSkeletons(items, family, init)[i] && init[i] == names[i];
      }
    }
  }

  lemma {:induction false} OperationsLength(items: seq<ActionDefinition>)
    ensures |OperationSkeletons(items)| == |items|
    ensures forall i :: 0 <= i < |items| ==> OperationSkeletons(items)[i] == OperationSkeleton(items[i])
  {
    if items != [] {
      OperationsLength(items[..|items| - 1]);
    }
  }

  /** A selected skeleton was one of those ranked. */
  lemma SelectedAmong(skeletons: seq<ActionCandidate>, cap: nat, q: Request, k: nat)
    requires k < |Select(skeletons, cap, q)|
    ensures Select(skeletons, cap, q)[k] in skeletons
  {
    SortKeeps(skeletons, RanksBefore);
    assert Select(skeletons, cap, q)[k] == Ranked(skeletons)[k];
  }

  lemma SelectedNamesOccur(items: seq<ActionDefinition>, family: ActionFamily, selected: seq<ActionCandidate>, cap: nat, q: Request, k: nat)
    requires selected == SelectedSubgroups(items, family, cap, q) && k < |selected|
    ensures selected[k].id in SubgroupNames(items)
  {
    SkeletonsLength(items, family, SubgroupNames(items));
    SelectedAmong(SubgroupSkeletons(items, family, SubgroupNames(items)), cap, q, k);
  }

  lemma {:induction false} DefinitionOfOccurs(items: seq<ActionDefinition>, id: string)
    ensures DefinitionOf(items, id).Some? <==> exists i :: 0 <= i < |items| && items[i].id == id
    ensures DefinitionOf(items, id).Some? ==> DefinitionOf(items, id).value in items && DefinitionOf(items, id).value.id == id
  {
    if items != [] && items[|items| - 1].id != id {
      DefinitionOfOccurs(items[..|items| - 1], id);
    }
  }

  lemma SelectedOperationsDefined(members: seq<ActionDefinition>, operations: seq<ActionCandidate>, cap: nat, q: Request)
    requires operations == Select(OperationSkeletons(members), cap, q)
    ensures forall i :: 0 <= i < |operations| ==> DefinitionOf(members, operations[i].id).Some?
  {
    OperationsLength(members);
    forall i | 0 <= i < |operations|
      ensures DefinitionOf(members, operations[i].id).Some?
    {
      SelectedAmong(OperationSkeletons(members), cap, q, i);
      DefinitionOfOccurs(members, operations[i].id);
    }
  }

  lemma {:induction false} FamilyMembers(defs: seq<ActionDefinition>, family: ActionFamily, q: Request, d: ActionDefinition)
    ensures d in FamilyDefinitions(defs, family, q) <==> d in defs && Survives(d, q) && d.family == family
  {
    if defs != [] {
      var init, last := defs[..|defs| - 1], defs[|defs| - 1];
      FamilyMembers(init, family, q, d);
      assert d in defs <==> d in init || d == last by { assert defs == init + [last]; }
    }
  }

  lemma SurvivorsFound(defs: seq<ActionDefinition>, family: ActionFamily, q: Request)
    ensures FamilyDefinitions(defs, family, q) != [] <==> exists i :: 0 <= i < |defs| && Survives(defs[i], q) && defs[i].family == family
    ensures forall d :: d in FamilyDefinitions(defs, family, q) <==> d in defs && Survives(d, q) && d.family == family
  {
    var found := FamilyDefinitions(defs, family, q);
    forall d
      ensures d in found <==> d in defs && Survives(d, q) && d.family == family
    {
      FamilyMembers(defs, family, q, d);
    }
    if found != [] {
      assert found[0] in found && found[0] in defs;
    }
    forall i | 0 <= i < |defs| && Survives(defs[i], q) && defs[i].family == family
      ensures found != []
    {
      assert defs[i] in found;
    }
  }

  lemma ClassifyStep(defs: seq<ActionDefinition>, q: Request, i: nat)
    requires i < |defs|
    ensures MaskedIds(defs[..i + 1], q) == MaskedIds(defs[..i], q) + (if Masked(defs[i], q) then [defs[i].id] else [])
    ensures PrunedIds(defs[..i + 1], q) == PrunedIds(defs[..i], q) + (if Pruned(defs[i], q) then [defs[i].id] else [])
    ensures forall f ::
              FamilyDefinitions(defs[..i + 1], f, q)
              == FamilyDefinitions(defs[..i], f, q) + (if Survives(defs[i], q) && defs[i].family == f then [defs[i]] else [])
  {
    assert defs[..i + 1][..i] == defs[..i];
  }

  /** The first loop: mask, prune, or file each definition under its family. */
  method Classify(defs: seq<ActionDefinition>, q: Request)
    returns (masked: seq<string>, pruned: seq<string>, feasible: map<ActionFamily, seq<ActionDefinition>>)
    ensures masked == MaskedIds(defs, q) && pruned == PrunedIds(defs, q)
    ensures forall f :: f in feasible <==> FamilyDefinitions(defs, f, q) != []
    ensures forall f :: f in feasible ==> feasible[f] == FamilyDefinitions(defs, f, q)
  {
    masked, pruned, feasible := [], [], map[];
    for i := 0 to |defs|
      invariant masked == MaskedIds(defs[..i], q) && pruned == PrunedIds(defs[..i], q)
      invariant forall f :: f in feasible ==> feasible[f] != []
      invariant forall f :: FamilyDefinitions(defs[..i], f, q) == if f in feasible then feasible[f] else []
    {
      ClassifyStep(defs, q, i);
      var d := defs[i];
      if Masked(d, q) {
        masked := masked + [d.id];
      } else if Pruned(d, q) {
        pruned := pruned + [d.id];
      } else if d.family in feasible {
        feasible := feasible[d.family := feasible[d.family] + [d]];
      } else {
        feasible := feasible[d.family := [d]];
      }
    }
    TakeAll(defs);
  }

  lemma NoDefinitionsNothing(family: ActionFamily, cap: nat, q: Request)
    ensures FamilyProduct([], family, cap, q) == []
    ensures q.initialWidth >= 1 ==> !FamilyWidens([], family, cap, q)
  {
    assert SelectedSubgroups([], family, cap, q) == [];
  }

  lemma FamilyStep(defs: seq<ActionDefinition>, cap: nat, q: Request, order: seq<ActionFamily>, n: nat)
    requires n < |order|
    ensures CandidatesOver(defs, cap, q, order[..n + 1]) == CandidatesOver(defs, cap, q, order[..n]) + FamilySlice(defs, cap, q, order[n])
    ensures WidenedOver(defs, cap, q, order[..n + 1]) == WidenedOver(defs, cap, q, order[..n]) + WidenedSlice(defs, cap, q, order[n])
  {
    assert order[..n + 1][..n] == order[..n];
  }

  /** Widening raises its ValueError for a family with survivors. */
  predicate FamilyRaises(defs: seq<ActionDefinition>, family: ActionFamily, cap: nat, q: Request) {
    FamilyDefinitions(defs, family, q) != [] && !ValidBounds(q.initialWidth, WidthLimit(cap, q))
  }

  /** One turn of the loop over families; `bad` is the ValueError that widening raises. */
  method VisitFamily(ghost defs: seq<ActionDefinition>, items: seq<ActionDefinition>, family: ActionFamily, cap: nat, q: Request)
    returns (bad: bool, familyCandidates: seq<ActionCandidate>, widened: seq<ActionFamily>)
    requires cap >= 1 && q.initialWidth >= 1 && items == FamilyDefinitions(defs, family, q)
    ensures bad == FamilyRaises(defs, family, cap, q)
    ensures !bad ==> familyCandidates == FamilySlice(defs, cap, q, family) && widened == WidenedSlice(defs, cap, q, family)
  {
    bad, familyCandidates, widened := false, [], [];
    if items == [] {
      NoDefinitionsNothing(family, cap, q);
    } else if !ValidBounds(q.initialWidth, WidthLimit(cap, q)) {
      bad := true;
    } else {
      var widens: bool;
      familyCandidates, widens := CompileFamily(items, family, cap, q);
      if widens {
        widened := [family];
      }
    }
  }

  /** What the loop over families has collected after the first `n`. */
  predicate FamiliesDone(defs: seq<ActionDefinition>, cap: nat, q: Request, order: seq<ActionFamily>, n: nat,
                         compiled: seq<ActionCandidate>, widened: seq<ActionFamily>)
    requires n <= |order|
  {
    compiled == CandidatesOver(defs, cap, q, order[..n]) && widened == WidenedOver(defs, cap, q, order[..n])
  }

  /** `feasible` files every surviving definition under its family. */
  ghost predicate Files(feasible: map<ActionFamily, seq<ActionDefinition>>, defs: seq<ActionDefinition>, q: Request) {
    && (forall f :: f in feasible <==> FamilyDefinitions(defs, f, q) != [])
    && (forall f :: f in feasible ==> feasible[f] == FamilyDefinitions(defs, f, q))
  }

  /** No family among the first `n` raises. */
  predicate NoneRaises(defs: seq<ActionDefinition>, cap: nat, q: Request, order: seq<ActionFamily>, n: nat)
    requires n <= |order|
  {
    forall m :: 0 <= m < n ==> !FamilyRaises(defs, order[m], cap, q)
  }

  lemma NoneRaisesStep(defs: seq<ActionDefinition>, cap: nat, q: Request, order: seq<ActionFamily>, n: nat)
    requires n < |order|
    ensures NoneRaises(defs, cap, q, order, n + 1)
       <==> NoneRaises(defs, cap, q, order, n) && !FamilyRaises(defs, order[n], cap, q)
  {
  }

  lemma RaisesWithin(defs: seq<ActionDefinition>, cap: nat, q: Request, order: seq<ActionFamily>, n: nat)
    requires n < |order| && FamilyRaises(defs, order[n], cap, q)
    ensures !NoneRaises(defs, cap, q, order, |order|)
  {
  }

  /** The loop over families, in the order of their wire values. */
  method CompileFamilies(defs: seq<ActionDefinition>, feasible: map<ActionFamily, seq<ActionDefinition>>, cap: nat, q: Request, order: seq<ActionFamily>)
    returns (bad: bool, compiled: seq<ActionCandidate>, widened: seq<ActionFamily>)
    requires cap >= 1 && q.initialWidth >= 1 && Files(feasible, defs, q)
    ensures bad <==> !NoneRaises(defs, cap, q, order, |order|)
    ensures !bad ==> FamiliesDone(defs, cap, q, order, |order|, compiled, widened)
  {
    bad, compiled, widened := false, [], [];
    for n := 0 to |order|
      invariant !bad && FamiliesDone(defs, cap, q, order, n, compiled, widened)
      invariant NoneRaises(defs, cap, q, order, n)
    {
      var family := order[n];
      var items := if family in feasible then feasible[family] else [];
      assert items == FamilyDefinitions(defs, family, q);
      var familyCandidates, familyWidened;
      bad, familyCandidates, familyWidened := VisitFamily(defs, items, family, cap, q);
      if bad {
        RaisesWithin(defs, cap, q, order, n);
        return;
      }
      NoneRaisesStep(defs, cap, q, order, n);
      FamilyStep(defs, cap, q, order, n);
      compiled, widened := compiled + familyCandidates, widened + familyWidened;
    }
  }

  lemma EveryFamilyOrdered(family: ActionFamily)
    ensures family in FAMILY_ORDER
  {
    var position := match family
      case AskUser => 0
      case Deliberate => 1
      case DirectTypedAction => 2
      case FrontierModel => 3
      case LocalModel => 4
      case Retrieval => 5
      case Stop => 6
      case Tool => 7
      case Verify => 8;
    assert FAMILY_ORDER[position] == family;
  }

  lemma SurvivorsRaise(defs: seq<ActionDefinition>, cap: nat, q: Request)
    ensures !NoneRaises(defs, cap, q, FAMILY_ORDER, |FAMILY_ORDER|)
       <==> SomeSurvivor(defs, q) && !ValidBounds(q.initialWidth, WidthLimit(cap, q))
  {
    if SomeSurvivor(defs, q) && !ValidBounds(q.initialWidth, WidthLimit(cap, q)) {
      var i :| 0 <= i < |defs| && Survives(defs[i], q);
      SurvivorsFound(defs, defs[i].family, q);
      EveryFamilyOrdered(defs[i].family);
      var n :| 0 <= n < |FAMILY_ORDER| && FAMILY_ORDER[n] == defs[i].family;
      assert FamilyRaises(defs, FAMILY_ORDER[n], cap, q);
    }
    if n :| 0 <= n < |FAMILY_ORDER| && FamilyRaises(defs, FAMILY_ORDER[n], cap, q) {
      SurvivorsFound(defs, FAMILY_ORDER[n], q);
    }
  }

  /** `compile_hierarchical`. The cap is positive, as the constructor demands. */
  method CompileHierarchical(defs: seq<ActionDefinition>, cap: nat, q: Request) returns (r: Result)
    requires cap >= 1
    ensures r == CompileSpec(defs, cap, q)
  {
    if q.remainingBudget < 0.0 {
      return Err(NegativeBudget);
    }
    if q.initialWidth < 1 {
      return Err(NonPositiveInitialWidth);
    }
    var masked, pruned, feasible := Classify(defs, q);
    var bad, compiled, widened := CompileFamilies(defs, feasible, cap, q, FAMILY_ORDER);
    SurvivorsRaise(defs, cap, q);
    TakeAll(FAMILY_ORDER);
    if bad {
      return Err(InvalidWideningBounds);
    }
    return Ok(Compilation(compiled, masked, compiled == [], pruned, widened));
  }
}
