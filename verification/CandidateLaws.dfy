/** What a compiled candidate is, in terms of the definition it came from and of nothing else, and
    which definitions get that far. */
module CandidateLaws {
  import opened Schema
  import opened Ranking
  import opened ProgressiveWidening
  import opened CandidateCompiler
  import opened CompilerLaws
  import Order = CompilerOrder

  // ----- Which definitions survive

  predicate KeysDistinct(arguments: seq<(string, string)>) {
    forall i, j :: 0 <= i < |arguments| && 0 <= j < |arguments| && arguments[i].0 == arguments[j].0 ==> i == j
  }

  predicate HasKey(arguments: seq<(string, string)>, key: string) {
    exists i :: 0 <= i < |arguments| && arguments[i].0 == key
  }

  /** Distinct keys, every required one, none outside a nonempty allowance, nothing empty. */
  ghost predicate WellFormed(d: ActionDefinition, arguments: seq<(string, string)>) {
    && KeysDistinct(arguments)
    && (forall key :: key in d.requiredArgumentKeys ==> HasKey(arguments, key))
    && (d.allowedArgumentKeys != {} ==> forall key :: HasKey(arguments, key) ==> key in d.allowedArgumentKeys)
    && (forall i :: 0 <= i < |arguments| ==> |arguments[i].0| > 0 && |arguments[i].1| > 0)
  }

  /** One of the argument lists a definition offers: the empty one if it lists none. */
  predicate Offers(d: ActionDefinition, arguments: seq<(string, string)>) {
    arguments in d.argumentVariants || (d.argumentVariants == [] && arguments == [])
  }

  /** One of the placements of a definition: "default" if it lists none. */
  predicate PlacedAt(d: ActionDefinition, placement: string) {
    placement in d.placements || (d.placements == [] && placement == "default")
  }

  ghost predicate Permitted(d: ActionDefinition, q: Request) {
    && d.family in q.policy.allowedFamilies && d.riskClass in q.policy.allowedRisks
    && d.dataBoundary in q.policy.allowedDataBoundaries && d.provenanceComplete
    && (forall arguments :: Offers(d, arguments) ==> WellFormed(d, arguments))
    && (q.allowedPlacements.Some? ==> forall placement :: PlacedAt(d, placement) ==> placement in q.allowedPlacements.value)
    && (exists v :: v in d.verifierIds && v in q.allowedVerifiers)
  }

  predicate Affordable(d: ActionDefinition, q: Request) {
    d.estimatedCost <= q.remainingBudget && q.minimumOptimisticUtility <= d.optimisticUtility
  }

  lemma ArgumentsValidMeans(d: ActionDefinition, arguments: seq<(string, string)>)
    ensures ArgumentsValid(d, arguments) <==> WellFormed(d, arguments)
  {
    if ArgumentsValid(d, arguments) {
      forall key | HasKey(arguments, key) && d.allowedArgumentKeys != {}
        ensures key in d.allowedArgumentKeys
      {
        var i :| 0 <= i < |arguments| && arguments[i].0 == key;
      }
    }
    if WellFormed(d, arguments) {
      forall i | 0 <= i < |arguments| && d.allowedArgumentKeys != {}
        ensures arguments[i].0 in d.allowedArgumentKeys
      {
        assert HasKey(arguments, arguments[i].0);
      }
    }
  }

  lemma AllVariantsValid(d: ActionDefinition)
    ensures (forall i :: 0 <= i < |Variants(d)| ==> ArgumentsValid(d, Variants(d)[i]))
       <==> (forall arguments :: Offers(d, arguments) ==> WellFormed(d, arguments))
  {
    if forall i :: 0 <= i < |Variants(d)| ==> ArgumentsValid(d, Variants(d)[i]) {
      forall arguments | Offers(d, arguments)
        ensures WellFormed(d, arguments)
      {
        assert arguments in Variants(d);
        ArgumentsValidMeans(d, arguments);
      }
    }
    if forall arguments :: Offers(d, arguments) ==> WellFormed(d, arguments) {
      forall i | 0 <= i < |Variants(d)|
        ensures ArgumentsValid(d, Variants(d)[i])
      {
        assert Offers(d, Variants(d)[i]);
        ArgumentsValidMeans(d, Variants(d)[i]);
      }
    }
  }

  lemma AllPlacementsAllowed(d: ActionDefinition, allowed: set<string>)
    ensures (forall i :: 0 <= i < |Placements(d)| ==> Placements(d)[i] in allowed)
       <==> (forall placement :: PlacedAt(d, placement) ==> placement in allowed)
  {
    if forall placement :: PlacedAt(d, placement) ==> placement in allowed {
      forall i | 0 <= i < |Placements(d)|
        ensures Placements(d)[i] in allowed
      {
        assert PlacedAt(d, Placements(d)[i]);
      }
    }
    if forall i :: 0 <= i < |Placements(d)| ==> Placements(d)[i] in allowed {
      forall placement | PlacedAt(d, placement)
        ensures placement in allowed
      {
        assert placement in Placements(d);
      }
    }
  }

  lemma SomeVerifierAllowed(d: ActionDefinition, q: Request)
    ensures (exists i :: 0 <= i < |d.verifierIds| && d.verifierIds[i] in q.allowedVerifiers)
       <==> (exists v :: v in d.verifierIds && v in q.allowedVerifiers)
  {
    if i :| 0 <= i < |d.verifierIds| && d.verifierIds[i] in q.allowedVerifiers {
      assert d.verifierIds[i] in d.verifierIds;
    }
  }

  lemma MaskedMeans(d: ActionDefinition, q: Request)
    ensures !Masked(d, q) <==> Permitted(d, q)
  {
    AllVariantsValid(d);
    if q.allowedPlacements.Some? {
      AllPlacementsAllowed(d, q.allowedPlacements.value);
    }
    SomeVerifierAllowed(d, q);
  }

  /** A definition is expanded exactly when policy, boundary, provenance, arguments, placements and
      verifiers permit it and the budget and the utility floor allow it. */
  lemma SurvivesMeans(d: ActionDefinition, q: Request)
    ensures Survives(d, q) <==> Permitted(d, q) && Affordable(d, q)
  {
    MaskedMeans(d, q);
  }

  /** The masked ids are those of the definitions that are not permitted, the pruned ids those of
      the permitted ones that are not affordable. */
  lemma SortedOut(defs: seq<ActionDefinition>, q: Request, d: ActionDefinition)
    requires DistinctIds(defs) && d in defs
    ensures d.id in MaskedIds(defs, q) <==> !Permitted(d, q)
    ensures d.id in PrunedIds(defs, q) <==> Permitted(d, q) && !Affordable(d, q)
  {
    Order.MaskedIdsCount(defs, q);
    MaskedMeans(d, q);
    forall e | e in defs && e.id == d.id
      ensures e == d
    {
      SameIdSameDefinition(defs, d, e);
    }
  }

  // ----- What a candidate carries

  /** A candidate of `d`, from its fields alone. */
  predicate Carries(c: ActionCandidate, d: ActionDefinition, arguments: seq<(string, string)>, placement: string, verifier: string) {
    && c.family == d.family && c.riskClass == d.riskClass && c.optimisticUtility + d.estimatedCost == d.optimisticUtility
    && |c.payload| == 3 + |arguments|
    && c.payload[0] == ("subgroup", d.subgroup) && c.payload[1] == ("operation", d.operation) && c.payload[2] == ("placement", placement)
    && c.payload[3..] == arguments
    && c.requestedVerifier == Some(verifier)
    && |c.id| > |d.id| && c.id[..|d.id|] == d.id && c.id[|d.id|] == ':'
  }

  lemma CandidateCarries(d: ActionDefinition, index: nat, arguments: seq<(string, string)>, placement: string, verifier: string)
    ensures Carries(Candidate(d, OperationSkeleton(d), index, arguments, placement, verifier), d, arguments, placement, verifier)
  {
    var c := Candidate(d, OperationSkeleton(d), index, arguments, placement, verifier);
    assert c.id == d.id + (":" + Decimal(index) + ":" + placement + ":" + verifier);
    assert c.payload == [("subgroup", d.subgroup), ("operation", d.operation), ("placement", placement)] + arguments;
  }

  /** Every compiled candidate carries the subgroup, the operation, a placement and all the arguments
      of a permitted and affordable definition, its net utility, and one of its allowed verifiers. */
  lemma EveryCandidateCarriesItsDefinition(defs: seq<ActionDefinition>, cap: nat, q: Request, c: ActionCandidate)
    returns (d: ActionDefinition, arguments: seq<(string, string)>, placement: string, verifier: string)
    requires DistinctIds(defs) && CompileSpec(defs, cap, q).Ok? && c in CompileSpec(defs, cap, q).compilation.candidates
    ensures d in defs && Permitted(d, q) && Affordable(d, q)
    ensures Carries(c, d, arguments, placement, verifier)
    ensures Offers(d, arguments) && WellFormed(d, arguments)
    ensures PlacedAt(d, placement) && (q.allowedPlacements.Some? ==> placement in q.allowedPlacements.value)
    ensures verifier in d.verifierIds && verifier in q.allowedVerifiers
  {
    d := EveryCandidateIsAdmitted(defs, cap, q, c);
    SurvivesMeans(d, q);
    arguments, placement, verifier := ExpansionCarries(c, d, q);
  }

  lemma ExpansionCarries(c: ActionCandidate, d: ActionDefinition, q: Request)
    returns (arguments: seq<(string, string)>, placement: string, verifier: string)
    requires ExpandsFrom(c, d, q)
    ensures Carries(c, d, arguments, placement, verifier) && Offers(d, arguments) && PlacedAt(d, placement)
    ensures verifier in d.verifierIds && verifier in q.allowedVerifiers
  {
    var i: nat, p, v :|
      && i < |Variants(d)| && p in Placements(d) && v in d.verifierIds && v in q.allowedVerifiers
      && c == Candidate(d, OperationSkeleton(d), i, Variants(d)[i], p, v);
    arguments, placement, verifier := Variants(d)[i], p, v;
    CandidateCarries(d, i, arguments, placement, verifier);
    assert arguments in Variants(d);
  }

  // ----- The order of an expansion

  lemma {:induction false} VerifierAt(d: ActionDefinition, skeleton: ActionCandidate, index: nat, arguments: seq<(string, string)>,
                                      placement: string, verifiers: seq<string>, w: nat)
    requires w < |verifiers|
    ensures |OverVerifiers(d, skeleton, index, arguments, placement, verifiers)| == |verifiers|
    ensures OverVerifiers(d, skeleton, index, arguments, placement, verifiers)[w] == Candidate(d, skeleton, index, arguments, placement, verifiers[w])
  {
    VerifiersCount(d, skeleton, index, arguments, placement, verifiers);
    VerifiersCount(d, skeleton, index, arguments, placement, verifiers[..|verifiers| - 1]);
    if w < |verifiers| - 1 {
      VerifierAt(d, skeleton, index, arguments, placement, verifiers[..|verifiers| - 1], w);
    }
  }

  lemma InBlock<T>(front: seq<T>, block: seq<T>, k: nat, at: nat)
    requires k < |block| && at == |front| + k
    ensures at < |front + block| && (front + block)[at] == block[k]
  {
  }

  lemma {:induction false} PlacementAt(d: ActionDefinition, skeleton: ActionCandidate, index: nat, arguments: seq<(string, string)>,
                                       placements: seq<string>, verifiers: seq<string>, p: nat, w: nat, at: nat)
    requires p < |placements| && w < |verifiers| && at == p * |verifiers| + w
    ensures at < |OverPlacements(d, skeleton, index, arguments, placements, verifiers)|
    ensures OverPlacements(d, skeleton, index, arguments, placements, verifiers)[at]
         == Candidate(d, skeleton, index, arguments, placements[p], verifiers[w])
  {
    var init, n := placements[..|placements| - 1], |placements| - 1;
    PlacementsCount(d, skeleton, index, arguments, init, verifiers);
    var front := OverPlacements(d, skeleton, index, arguments, init, verifiers);
    var block := OverVerifiers(d, skeleton, index, arguments, placements[n], verifiers);
    if p < n {
      PlacementAt(d, skeleton, index, arguments, init, verifiers, p, w, at);
    } else {
      VerifierAt(d, skeleton, index, arguments, placements[n], verifiers, w);
      InBlock(front, block, w, at);
    }
  }

  /** Blocks of equal length, one after the other. */
  function Blocks<T>(block: nat -> seq<T>, n: nat): seq<T> {
    if n == 0 then [] else Blocks(block, n - 1) + block(n - 1)
  }

  lemma {:induction false} BlocksLength<T>(block: nat -> seq<T>, n: nat, each: nat)
    requires forall j: nat :: j < n ==> |block(j)| == each
    ensures |Blocks(block, n)| == n * each
  {
    if n > 0 {
      BlocksLength(block, n - 1, each);
      OneMore(n - 1, each);
    }
  }

  lemma {:induction false} BlockAt<T>(block: nat -> seq<T>, n: nat, each: nat, i: nat, inner: nat, start: nat)
    requires i < n && inner < |block(i)| && start == i * each && forall j: nat :: j < n ==> |block(j)| == each
    ensures start + inner < |Blocks(block, n)| && Blocks(block, n)[start + inner] == block(i)[inner]
  {
    if i < n - 1 {
      BlockAt(block, n - 1, each, i, inner, start);
    } else {
      BlocksLength(block, n - 1, each);
      InBlock(Blocks(block, n - 1), block(n - 1), inner, start + inner);
    }
  }

  function VariantExpansion(d: ActionDefinition, skeleton: ActionCandidate, variants: seq<seq<(string, string)>>,
                            placements: seq<string>, verifiers: seq<string>): nat -> seq<ActionCandidate> {
    (j: nat) => if j < |variants| then OverPlacements(d, skeleton, j, variants[j], placements, verifiers) else []
  }

  lemma {:induction false} SameBlocks<T>(a: nat -> seq<T>, b: nat -> seq<T>, n: nat)
    requires forall j: nat :: j < n ==> a(j) == b(j)
    ensures Blocks(a, n) == Blocks(b, n)
  {
    if n > 0 {
      SameBlocks(a, b, n - 1);
    }
  }

  lemma {:induction false} VariantsAreBlocks(d: ActionDefinition, skeleton: ActionCandidate, variants: seq<seq<(string, string)>>,
                                             placements: seq<string>, verifiers: seq<string>)
    ensures OverVariants(d, skeleton, variants, placements, verifiers)
         == Blocks(VariantExpansion(d, skeleton, variants, placements, verifiers), |variants|)
  {
    if variants != [] {
      var n := |variants| - 1;
      VariantsAreBlocks(d, skeleton, variants[..n], placements, verifiers);
      SameBlocks(VariantExpansion(d, skeleton, variants[..n], placements, verifiers), VariantExpansion(d, skeleton, variants, placements, verifiers), n);
    }
  }

  /** Variant `i` fills the `i`-th block of the expansion. */
  lemma VariantBlock(d: ActionDefinition, skeleton: ActionCandidate, variants: seq<seq<(string, string)>>,
                     placements: seq<string>, verifiers: seq<string>, i: nat, each: nat, inner: nat, start: nat)
    requires i < |variants| && each == |placements| * |verifiers| && start == i * each
    requires inner < |OverPlacements(d, skeleton, i, variants[i], placements, verifiers)|
    ensures start + inner < |OverVariants(d, skeleton, variants, placements, verifiers)|
    ensures OverVariants(d, skeleton, variants, placements, verifiers)[start + inner]
         == OverPlacements(d, skeleton, i, variants[i], placements, verifiers)[inner]
  {
    var block := VariantExpansion(d, skeleton, variants, placements, verifiers);
    forall j: nat | j < |variants|
      ensures |block(j)| == each
    {
      PlacementsCount(d, skeleton, j, variants[j], placements, verifiers);
    }
    VariantsAreBlocks(d, skeleton, variants, placements, verifiers);
    BlockAt(block, |variants|, each, i, inner, start);
  }

  lemma VariantAt(d: ActionDefinition, skeleton: ActionCandidate, variants: seq<seq<(string, string)>>,
                  placements: seq<string>, verifiers: seq<string>, i: nat, p: nat, w: nat, each: nat, inner: nat, start: nat)
    requires i < |variants| && p < |placements| && w < |verifiers|
    requires each == |placements| * |verifiers| && inner == p * |verifiers| + w && start == i * each
    ensures start + inner < |OverVariants(d, skeleton, variants, placements, verifiers)|
    ensures OverVariants(d, skeleton, variants, placements, verifiers)[start + inner]
         == Candidate(d, skeleton, i, variants[i], placements[p], verifiers[w])
  {
    PlacementAt(d, skeleton, i, variants[i], placements, verifiers, p, w, inner);
    VariantBlock(d, skeleton, variants, placements, verifiers, i, each, inner, start);
  }

  /** Expansion is in lexicographic order of variant, placement and verifier: the candidate of
      variant `i`, placement `p` and verifier `w` stands at the position that counting gives it. */
  lemma ExpansionOrder(d: ActionDefinition, variants: seq<seq<(string, string)>>, placements: seq<string>, verifiers: seq<string>,
                       i: nat, p: nat, w: nat, each: nat, inner: nat, start: nat)
    requires i < |variants| && p < |placements| && w < |verifiers|
    requires each == |placements| * |verifiers| && inner == p * |verifiers| + w && start == i * each
    ensures start + inner < |OverVariants(d, OperationSkeleton(d), variants, placements, verifiers)|
    ensures Carries(OverVariants(d, OperationSkeleton(d), variants, placements, verifiers)[start + inner],
                    d, variants[i], placements[p], verifiers[w])
  {
    VariantAt(d, OperationSkeleton(d), variants, placements, verifiers, i, p, w, each, inner, start);
    CandidateCarries(d, i, variants[i], placements[p], verifiers[w]);
  }

  // ----- The best action of a family comes first

  lemma FirstSelected(skeletons: seq<ActionCandidate>, cap: nat, q: Request)
    requires skeletons != [] && ValidBounds(q.initialWidth, WidthLimit(cap, q))
    ensures Select(skeletons, cap, q) != [] && Select(skeletons, cap, q)[0] in skeletons
    ensures forall x :: x in skeletons ==> x.optimisticUtility <= Select(skeletons, cap, q)[0].optimisticUtility
  {
    SelectionNonempty(skeletons, cap, q);
    SelectedAmong(skeletons, cap, q, 0);
    forall x | x in skeletons
      ensures x.optimisticUtility <= Select(skeletons, cap, q)[0].optimisticUtility
    {
      FirstRanked(skeletons, x);
    }
  }

  lemma ExpansionUtility(d: ActionDefinition, skeleton: ActionCandidate, q: Request, c: ActionCandidate)
    requires c in Expansion(d, skeleton, q)
    ensures c.optimisticUtility == skeleton.optimisticUtility
  {
    var i, p, v := VariantLevel(c, d, skeleton, Variants(d), Placements(d), AllowedVerifiers(d.verifierIds, q.allowedVerifiers));
  }

  lemma FirstOfOperations(members: seq<ActionDefinition>, cap: nat, q: Request, d: ActionDefinition)
    requires d in members && forall e :: e in members ==> Survives(e, q)
    requires ValidBounds(q.initialWidth, WidthLimit(cap, q))
    ensures var product := OverOperations(members, Select(OperationSkeletons(members), cap, q), q);
            product != [] && product[0].optimisticUtility >= NetUtility(d)
  {
    var skeletons := OperationSkeletons(members);
    var operations := Select(skeletons, cap, q);
    OperationsLength(members);
    FirstSelected(skeletons, cap, q);
    var m :| 0 <= m < |members| && members[m] == d;
    assert skeletons[m] in skeletons && skeletons[m].optimisticUtility == NetUtility(d);
    SelectedOperationsDefined(members, operations, cap, q);
    DefinitionOfOccurs(members, operations[0].id);
    var first := DefinitionOf(members, operations[0].id).value;
    SurvivorExpands(first, operations[0], q);
    FirstExpanded(members, operations, q, first);
    ExpansionUtility(first, operations[0], q, Expansion(first, operations[0], q)[0]);
  }

  lemma FirstExpanded(members: seq<ActionDefinition>, operations: seq<ActionCandidate>, q: Request, first: ActionDefinition)
    requires operations != [] && DefinitionOf(members, operations[0].id) == Some(first) && Expansion(first, operations[0], q) != []
    ensures OverOperations(members, operations, q) != []
    ensures OverOperations(members, operations, q)[0] == Expansion(first, operations[0], q)[0]
  {
    OperationsStep(members, operations, q, 0);
    OperationsPrefix(members, operations, q, 1);
    assert operations[..0] == [];
  }

  lemma BestSubgroupFirst(items: seq<ActionDefinition>, family: ActionFamily, cap: nat, q: Request, d: ActionDefinition) returns (best: ActionDefinition)
    requires d in items && ValidBounds(q.initialWidth, WidthLimit(cap, q))
    ensures var selected := SelectedSubgroups(items, family, cap, q);
            selected != [] && best in InSubgroup(items, selected[0].id) && NetUtility(best) >= NetUtility(d)
  {
    var names := SubgroupNames(items);
    var skeletons := SubgroupSkeletons(items, family, names);
    SkeletonsLength(items, family, names);
    NamesOccur(items, d.subgroup);
    InSubgroupMembers(items, d.subgroup);
    assert d in InSubgroup(items, d.subgroup);
    var m :| 0 <= m < |names| && names[m] == d.subgroup;
    assert skeletons[m] in skeletons;
    FirstSelected(skeletons, cap, q);
    Order.BestNetIsGreatest(InSubgroup(items, d.subgroup));
    var top := SelectedSubgroups(items, family, cap, q)[0];
    var t :| 0 <= t < |skeletons| && skeletons[t] == top;
    NamesOccur(items, names[t]);
    Order.BestNetIsGreatest(InSubgroup(items, names[t]));
    best := BestMember(InSubgroup(items, names[t]));
  }

  lemma BestMember(items: seq<ActionDefinition>) returns (best: ActionDefinition)
    requires items != []
    ensures best in items && NetUtility(best) == BestNet(items)
  {
    Order.BestNetIsGreatest(items);
    best :| best in items && NetUtility(best) == BestNet(items);
  }

  lemma FirstOfFamily(items: seq<ActionDefinition>, family: ActionFamily, cap: nat, q: Request, d: ActionDefinition)
    requires d in items && forall e :: e in items ==> Survives(e, q)
    requires ValidBounds(q.initialWidth, WidthLimit(cap, q))
    ensures FamilyProduct(items, family, cap, q) != [] && FamilyProduct(items, family, cap, q)[0].optimisticUtility >= NetUtility(d)
  {
    var best := BestSubgroupFirst(items, family, cap, q, d);
    var selected := SelectedSubgroups(items, family, cap, q);
    var members := InSubgroup(items, selected[0].id);
    InSubgroupMembers(items, selected[0].id);
    FirstOfOperations(members, cap, q, best);
    SubgroupsStep(items, selected, cap, q, 0);
    SubgroupsPrefix(items, selected, cap, q, 1);
    assert selected[..0] == [];
  }

  /** The first candidate of a family is its best action: no definition of the family that survives
      has a greater utility net of its cost. */
  lemma BestActionComesFirst(defs: seq<ActionDefinition>, cap: nat, q: Request, d: ActionDefinition)
    requires cap >= 1 && CompileSpec(defs, cap, q).Ok? && d in defs && Permitted(d, q) && Affordable(d, q)
    ensures var mine := OfFamily(CompileSpec(defs, cap, q).compilation.candidates, d.family);
            mine != [] && mine[0].optimisticUtility >= d.optimisticUtility - d.estimatedCost
  {
    SurvivesMeans(d, q);
    FamilyItems(defs, q, d);
    var product := FamilyProduct(FamilyDefinitions(defs, d.family, q), d.family, cap, q);
    FirstOfFamily(FamilyDefinitions(defs, d.family, q), d.family, cap, q, d);
    ReportedSlice(defs, cap, q, d.family);
    TakeFirst(product, cap);
  }

  lemma ReportedSlice(defs: seq<ActionDefinition>, cap: nat, q: Request, family: ActionFamily)
    requires CompileSpec(defs, cap, q).Ok?
    ensures OfFamily(CompileSpec(defs, cap, q).compilation.candidates, family) == Take(FamilyProduct(FamilyDefinitions(defs, family, q), family, cap, q), cap)
  {
    CompiledSlice(defs, cap, q, family);
  }

  lemma TakeFirst<T>(s: seq<T>, n: nat)
    requires s != [] && n >= 1
    ensures Take(s, n) != [] && Take(s, n)[0] == s[0]
  {
  }

  lemma FamilyItems(defs: seq<ActionDefinition>, q: Request, d: ActionDefinition)
    requires d in defs && Survives(d, q)
    ensures SomeSurvivor(defs, q) && d in FamilyDefinitions(defs, d.family, q)
    ensures forall e :: e in FamilyDefinitions(defs, d.family, q) ==> Survives(e, q)
  {
    SurvivorsFound(defs, d.family, q);
    var i :| 0 <= i < |defs| && defs[i] == d;
  }

  // ----- Which families are reported as widened

  lemma SelectionNoLonger(skeletons: seq<ActionCandidate>, cap: nat, q: Request)
    ensures |Select(skeletons, cap, q)| <= |skeletons|
  {
    SortKeeps(skeletons, RanksBefore);
  }

  /** Some selection that the capped loop reached is longer than the initial width. */
  ghost predicate WiderThanInitial(items: seq<ActionDefinition>, family: ActionFamily, cap: nat, q: Request) {
    var subgroups := SelectedSubgroups(items, family, cap, q);
    || |subgroups| > q.initialWidth
    || exists k :: 0 <= k < |subgroups| && |OverSubgroups(items, subgroups[..k], cap, q)| < cap
                   && |SelectedOperations(items, subgroups[k].id, cap, q)| > q.initialWidth
  }

  lemma OperationsWidenMeans(items: seq<ActionDefinition>, name: string, cap: nat, q: Request)
    ensures OperationsWiden(items, name, cap, q) <==> |SelectedOperations(items, name, cap, q)| > q.initialWidth
  {
    OperationsLength(InSubgroup(items, name));
    SelectionNoLonger(OperationSkeletons(InSubgroup(items, name)), cap, q);
  }

  lemma SubgroupsWidenMeans(items: seq<ActionDefinition>, family: ActionFamily, cap: nat, q: Request)
    ensures |SelectedSubgroups(items, family, cap, q)| > Min(q.initialWidth, |SubgroupNames(items)|)
       <==> |SelectedSubgroups(items, family, cap, q)| > q.initialWidth
  {
    SkeletonsLength(items, family, SubgroupNames(items));
    SelectionNoLonger(SubgroupSkeletons(items, family, SubgroupNames(items)), cap, q);
  }

  lemma ReachedMeans(items: seq<ActionDefinition>, subgroups: seq<ActionCandidate>, cap: nat, q: Request, k: nat)
    requires k < |subgroups|
    ensures ReachedAndWidens(items, subgroups, cap, q, k)
       <==> |OverSubgroups(items, subgroups[..k], cap, q)| < cap && |SelectedOperations(items, subgroups[k].id, cap, q)| > q.initialWidth
  {
    OperationsWidenMeans(items, subgroups[k].id, cap, q);
  }

  lemma FamilyWidensMeans(items: seq<ActionDefinition>, family: ActionFamily, cap: nat, q: Request)
    ensures FamilyWidens(items, family, cap, q) <==> WiderThanInitial(items, family, cap, q)
  {
    var subgroups := SelectedSubgroups(items, family, cap, q);
    SubgroupsWidenMeans(items, family, cap, q);
    forall k | 0 <= k < |subgroups|
      ensures ReachedAndWidens(items, subgroups, cap, q, k)
         <==> |OverSubgroups(items, subgroups[..k], cap, q)| < cap && |SelectedOperations(items, subgroups[k].id, cap, q)| > q.initialWidth
    {
      ReachedMeans(items, subgroups, cap, q, k);
    }
  }

  lemma {:induction false} WidenedMembers(defs: seq<ActionDefinition>, cap: nat, q: Request, order: seq<ActionFamily>, family: ActionFamily)
    ensures family in WidenedOver(defs, cap, q, order) <==> family in order && family in WidenedSlice(defs, cap, q, family)
    decreases |order|
  {
    if order != [] {
      var init, last := order[..|order| - 1], order[|order| - 1];
      WidenedMembers(defs, cap, q, init, family);
      assert order == init + [last];
      assert WidenedOver(defs, cap, q, order) == WidenedOver(defs, cap, q, init) + WidenedSlice(defs, cap, q, last);
    }
  }

  /** A family is reported as widened exactly when one of the selections it reached, of subgroups or
      of operations, is longer than the initial width. */
  lemma WidenedExactlyWhen(defs: seq<ActionDefinition>, cap: nat, q: Request, family: ActionFamily)
    requires CompileSpec(defs, cap, q).Ok?
    ensures family in CompileSpec(defs, cap, q).compilation.widenedFamilies
       <==> WiderThanInitial(FamilyDefinitions(defs, family, q), family, cap, q)
  {
    EveryFamilyOrdered(family);
    WidenedMembers(defs, cap, q, FAMILY_ORDER, family);
    FamilyWidensMeans(FamilyDefinitions(defs, family, q), family, cap, q);
  }

  // ----- Width and order

  /** The greatest width a request allows: its maximum, if it names one other than zero, within the cap. */
  function Limit(cap: nat, q: Request): int {
    if q.maximumWidth.Some? && q.maximumWidth.value != 0 && q.maximumWidth.value < cap then q.maximumWidth.value else cap
  }

  /** A selection is the shortest ranked prefix of at least the initial width that reaches the limit or
      ends at a gap above the margin. */
  lemma SelectionIsShortest(skeletons: seq<ActionCandidate>, cap: nat, q: Request)
    requires 1 <= q.initialWidth <= Limit(cap, q)
    ensures var kept, ranked := Select(skeletons, cap, q), Ranked(skeletons);
            && kept <= ranked && |kept| <= Limit(cap, q)
            && (|kept| >= q.initialWidth || kept == ranked)
            && (|kept| == Limit(cap, q) || kept == ranked
                || (0 < |kept| < |ranked| && ranked[|kept| - 1].optimisticUtility - ranked[|kept|].optimisticUtility > q.wideningMargin))
            && forall w :: q.initialWidth <= w < |kept| && w < |ranked| ==> ranked[w - 1].optimisticUtility - ranked[w].optimisticUtility <= q.wideningMargin
  {
    var kept, ranked, limit := Select(skeletons, cap, q), Ranked(skeletons), Limit(cap, q);
    assert limit == WidthLimit(cap, q);
    WidenedIsShortest(skeletons, q.initialWidth, limit, q.wideningMargin);
    forall w | q.initialWidth <= w < |kept| && w < |ranked|
      ensures ranked[w - 1].optimisticUtility - ranked[w].optimisticUtility <= q.wideningMargin
    {
      assert !Stops(ranked, q.initialWidth, limit, q.wideningMargin, w);
    }
  }

  /** Allowed verifiers keep the order of the definition. */
  lemma {:induction false} VerifiersKeepOrder(a: seq<string>, b: seq<string>, allowed: set<string>)
    ensures AllowedVerifiers(a + b, allowed) == AllowedVerifiers(a, allowed) + AllowedVerifiers(b, allowed)
  {
    if b == [] {
      assert a + b == a;
    } else {
      assert (a + b)[..|a + b| - 1] == a + b[..|b| - 1];
      VerifiersKeepOrder(a, b[..|b| - 1], allowed);
    }
  }

  /** Masked and pruned ids keep the order of the catalogue. */
  lemma {:induction false} IdsKeepOrder(a: seq<ActionDefinition>, b: seq<ActionDefinition>, q: Request)
    ensures MaskedIds(a + b, q) == MaskedIds(a, q) + MaskedIds(b, q) && PrunedIds(a + b, q) == PrunedIds(a, q) + PrunedIds(b, q)
  {
    if b == [] {
      assert a + b == a;
    } else {
      assert (a + b)[..|a + b| - 1] == a + b[..|b| - 1];
      IdsKeepOrder(a, b[..|b| - 1], q);
    }
  }
}
