/** What hierarchical compilation guarantees for every catalogue of definitions: the
    order of the families, the per-family bounds, and where each candidate comes from. */
module CompilerLaws {
  import opened Schema
  import opened Ranking
  import opened ProgressiveWidening
  import opened CandidateCompiler

  /** Families are visited in strictly increasing order of their wire values. */
  lemma FamiliesVisitedInOrder(m: nat, n: nat)
    requires m < n < |FAMILY_ORDER|
    ensures StringLess(FamilyValue(FAMILY_ORDER[m]), FamilyValue(FAMILY_ORDER[n]))
  {
    if m == 1 && n == 2 {
      assert FamilyValue(Deliberate)[1..][0] < FamilyValue(DirectTypedAction)[1..][0];
    } else {
      FirstLetterDecides(FamilyValue(FAMILY_ORDER[m]), FamilyValue(FAMILY_ORDER[n]));
    }
  }

  lemma FirstLetterDecides(a: string, b: string)
    requires a != [] && b != [] && a[0] < b[0]
    ensures StringLess(a, b)
  {
  }

  // ----- Membership in the product

  lemma {:induction false} VerifierLevel(c: ActionCandidate, d: ActionDefinition, skeleton: ActionCandidate, index: nat,
                                         arguments: seq<(string, string)>, placement: string, verifiers: seq<string>)
    returns (v: string)
    requires c in OverVerifiers(d, skeleton, index, arguments, placement, verifiers)
    ensures v in verifiers && c == Candidate(d, skeleton, index, arguments, placement, v)
  {
    v := verifiers[|verifiers| - 1];
    if c != Candidate(d, skeleton, index, arguments, placement, v) {
      v := VerifierLevel(c, d, skeleton, index, arguments, placement, verifiers[..|verifiers| - 1]);
    }
  }

  lemma {:induction false} PlacementLevel(c: ActionCandidate, d: ActionDefinition, skeleton: ActionCandidate, index: nat,
                                          arguments: seq<(string, string)>, placements: seq<string>, verifiers: seq<string>)
    returns (p: string, v: string)
    requires c in OverPlacements(d, skeleton, index, arguments, placements, verifiers)
    ensures p in placements && v in verifiers && c == Candidate(d, skeleton, index, arguments, p, v)
  {
    p := placements[|placements| - 1];
    if c in OverVerifiers(d, skeleton, index, arguments, p, verifiers) {
      v := VerifierLevel(c, d, skeleton, index, arguments, p, verifiers);
    } else {
      p, v := PlacementLevel(c, d, skeleton, index, arguments, placements[..|placements| - 1], verifiers);
    }
  }

  lemma {:induction false} VariantLevel(c: ActionCandidate, d: ActionDefinition, skeleton: ActionCandidate,
                                        variants: seq<seq<(string, string)>>, placements: seq<string>, verifiers: seq<string>)
    returns (i: nat, p: string, v: string)
    requires c in OverVariants(d, skeleton, variants, placements, verifiers)
    ensures i < |variants| && p in placements && v in verifiers && c == Candidate(d, skeleton, i, variants[i], p, v)
  {
    i := |variants| - 1;
    if c in OverPlacements(d, skeleton, i, variants[i], placements, verifiers) {
      p, v := PlacementLevel(c, d, skeleton, i, variants[i], placements, verifiers);
    } else {
      i, p, v := VariantLevel(c, d, skeleton, variants[..|variants| - 1], placements, verifiers);
    }
  }

  lemma {:induction false} OperationLevel(c: ActionCandidate, items: seq<ActionDefinition>, operations: seq<ActionCandidate>, q: Request)
    returns (d: ActionDefinition, skeleton: ActionCandidate)
    requires c in OverOperations(items, operations, q)
    ensures skeleton in operations && DefinitionOf(items, skeleton.id) == Some(d) && c in Expansion(d, skeleton, q)
  {
    skeleton := operations[|operations| - 1];
    var found := DefinitionOf(items, skeleton.id);
    if found.Some? && c in Expansion(found.value, skeleton, q) {
      d := found.value;
    } else {
      d, skeleton := OperationLevel(c, items, operations[..|operations| - 1], q);
    }
  }

  lemma {:induction false} SubgroupLevel(c: ActionCandidate, items: seq<ActionDefinition>, subgroups: seq<ActionCandidate>, cap: nat, q: Request)
    returns (name: string)
    requires c in OverSubgroups(items, subgroups, cap, q)
    ensures c in OverOperations(InSubgroup(items, name), SelectedOperations(items, name, cap, q), q)
  {
    name := subgroups[|subgroups| - 1].id;
    if c !in OverOperations(InSubgroup(items, name), SelectedOperations(items, name, cap, q), q) {
      name := SubgroupLevel(c, items, subgroups[..|subgroups| - 1], cap, q);
    }
  }

  lemma {:induction false} InSubgroupMembers(items: seq<ActionDefinition>, name: string)
    ensures forall d :: d in InSubgroup(items, name) <==> d in items && d.subgroup == name
  {
    if items != [] {
      InSubgroupMembers(items[..|items| - 1], name);
      assert items == items[..|items| - 1] + [items[|items| - 1]];
    }
  }

  lemma {:induction false} AllowedVerifiersMembers(ids: seq<string>, allowed: set<string>)
    ensures forall v :: v in AllowedVerifiers(ids, allowed) <==> v in ids && v in allowed
  {
    if ids != [] {
      AllowedVerifiersMembers(ids[..|ids| - 1], allowed);
      assert ids == ids[..|ids| - 1] + [ids[|ids| - 1]];
    }
  }

  /** A candidate of the product of `items` expands one of `items`, with a ranked skeleton of the same id. */
  lemma ProductMember(c: ActionCandidate, items: seq<ActionDefinition>, family: ActionFamily, cap: nat, q: Request)
    returns (d: ActionDefinition, source: ActionDefinition, i: nat, p: string, v: string)
    requires c in FamilyProduct(items, family, cap, q)
    ensures d in items && source in items && source.id == d.id
    ensures i < |Variants(d)| && p in Placements(d) && v in d.verifierIds && v in q.allowedVerifiers
    ensures c == Candidate(d, OperationSkeleton(source), i, Variants(d)[i], p, v)
  {
    var name := SubgroupLevel(c, items, SelectedSubgroups(items, family, cap, q), cap, q);
    var members := InSubgroup(items, name);
    var operations := SelectedOperations(items, name, cap, q);
    var skeleton;
    d, skeleton := OperationLevel(c, members, operations, q);
    i, p, v := VariantLevel(c, d, skeleton, Variants(d), Placements(d), AllowedVerifiers(d.verifierIds, q.allowedVerifiers));
    AllowedVerifiersMembers(d.verifierIds, q.allowedVerifiers);
    DefinitionOfOccurs(members, skeleton.id);
    InSubgroupMembers(items, name);
    var k :| 0 <= k < |operations| && operations[k] == skeleton;
    SelectedAmong(OperationSkeletons(members), cap, q, k);
    OperationsLength(members);
    var m :| 0 <= m < |OperationSkeletons(members)| && OperationSkeletons(members)[m] == skeleton;
    source := members[m];
    assert source in members;
  }

  predicate DistinctIds(defs: seq<ActionDefinition>) {
    forall i, j :: 0 <= i < j < |defs| ==> defs[i].id != defs[j].id
  }

  /** `c` is an expansion of `d` that the request admits. */
  ghost predicate ExpandsFrom(c: ActionCandidate, d: ActionDefinition, q: Request) {
    exists i: nat, p, v ::
      && i < |Variants(d)| && p in Placements(d) && v in d.verifierIds && v in q.allowedVerifiers
      && c == Candidate(d, OperationSkeleton(d), i, Variants(d)[i], p, v)
  }

  lemma {:induction false} InSomeFamily(c: ActionCandidate, defs: seq<ActionDefinition>, cap: nat, q: Request, order: seq<ActionFamily>)
    returns (family: ActionFamily)
    requires c in CandidatesOver(defs, cap, q, order)
    ensures c in FamilyProduct(FamilyDefinitions(defs, family, q), family, cap, q)
    decreases |order|
  {
    if c in CandidatesOver(defs, cap, q, order[..|order| - 1]) {
      family := InSomeFamily(c, defs, cap, q, order[..|order| - 1]);
    } else {
      family := order[|order| - 1];
    }
  }

  lemma SameIdSameDefinition(defs: seq<ActionDefinition>, d: ActionDefinition, e: ActionDefinition)
    requires DistinctIds(defs) && d in defs && e in defs && d.id == e.id
    ensures d == e
  {
    var a :| 0 <= a < |defs| && defs[a] == d;
    var b :| 0 <= b < |defs| && defs[b] == e;
    assert a == b;
  }

  lemma FamilyCandidateIsAdmitted(defs: seq<ActionDefinition>, family: ActionFamily, cap: nat, q: Request, c: ActionCandidate)
    returns (d: ActionDefinition)
    requires DistinctIds(defs) && c in FamilyProduct(FamilyDefinitions(defs, family, q), family, cap, q)
    ensures d in defs && Survives(d, q) && ExpandsFrom(c, d, q)
  {
    var source, i, p, v;
    d, source, i, p, v := ProductMember(c, FamilyDefinitions(defs, family, q), family, cap, q);
    FamilyMembers(defs, family, q, d);
    FamilyMembers(defs, family, q, source);
    SameIdSameDefinition(defs, d, source);
  }

  /** Every compiled candidate expands a definition of the catalogue that survived the
      policy mask, the boundary, argument, placement and verifier checks, and the budget. */
  lemma EveryCandidateIsAdmitted(defs: seq<ActionDefinition>, cap: nat, q: Request, c: ActionCandidate) returns (d: ActionDefinition)
    requires DistinctIds(defs) && c in Compiled(defs, cap, q).candidates
    ensures d in defs && Survives(d, q) && ExpandsFrom(c, d, q)
  {
    var family := InSomeFamily(c, defs, cap, q, FAMILY_ORDER);
    d := FamilyCandidateIsAdmitted(defs, family, cap, q, c);
  }

  // ----- Per-family bounds

  lemma {:induction false} VerifiersCount(d: ActionDefinition, skeleton: ActionCandidate, index: nat, arguments: seq<(string, string)>,
                                          placement: string, verifiers: seq<string>)
    ensures |OverVerifiers(d, skeleton, index, arguments, placement, verifiers)| == |verifiers|
  {
    if verifiers != [] {
      VerifiersCount(d, skeleton, index, arguments, placement, verifiers[..|verifiers| - 1]);
    }
  }

  lemma OneMore(n: nat, each: nat)
    ensures (n + 1) * each == n * each + each
  {
  }

  lemma {:induction false} PlacementsCount(d: ActionDefinition, skeleton: ActionCandidate, index: nat, arguments: seq<(string, string)>,
                                           placements: seq<string>, verifiers: seq<string>)
    ensures |OverPlacements(d, skeleton, index, arguments, placements, verifiers)| == |placements| * |verifiers|
  {
    if placements != [] {
      PlacementsCount(d, skeleton, index, arguments, placements[..|placements| - 1], verifiers);
      VerifiersCount(d, skeleton, index, arguments, placements[|placements| - 1], verifiers);
      OneMore(|placements| - 1, |verifiers|);
    }
  }

  /** An operation expands to variants times placements times verifiers candidates. */
  lemma {:induction false} VariantsCount(d: ActionDefinition, skeleton: ActionCandidate, variants: seq<seq<(string, string)>>,
                                         placements: seq<string>, verifiers: seq<string>, each: nat)
    requires each == |placements| * |verifiers|
    ensures |OverVariants(d, skeleton, variants, placements, verifiers)| == |variants| * each
  {
    if variants != [] {
      VariantsCount(d, skeleton, variants[..|variants| - 1], placements, verifiers, each);
      PlacementsCount(d, skeleton, |variants| - 1, variants[|variants| - 1], placements, verifiers);
      OneMore(|variants| - 1, each);
    }
  }

  lemma ProductNonempty(d: ActionDefinition, skeleton: ActionCandidate, variants: seq<seq<(string, string)>>,
                        placements: seq<string>, verifiers: seq<string>)
    requires variants != [] && placements != [] && verifiers != []
    ensures OverVariants(d, skeleton, variants, placements, verifiers) != []
  {
    var each := |placements| * |verifiers|;
    ProductPositive(|placements|, |verifiers|);
    ProductPositive(|variants|, each);
    VariantsCount(d, skeleton, variants, placements, verifiers, each);
  }

  lemma ProductPositive(a: nat, b: nat)
    requires a >= 1 && b >= 1
    ensures a * b >= 1
  {
  }

  lemma SurvivorHasVerifier(d: ActionDefinition, q: Request)
    requires Survives(d, q)
    ensures AllowedVerifiers(d.verifierIds, q.allowedVerifiers) != []
  {
    AllowedVerifiersMembers(d.verifierIds, q.allowedVerifiers);
    var k :| 0 <= k < |d.verifierIds| && d.verifierIds[k] in q.allowedVerifiers;
    assert d.verifierIds[k] in AllowedVerifiers(d.verifierIds, q.allowedVerifiers);
  }

  lemma SurvivorExpands(d: ActionDefinition, skeleton: ActionCandidate, q: Request)
    requires Survives(d, q)
    ensures Expansion(d, skeleton, q) != []
  {
    SurvivorHasVerifier(d, q);
    ProductNonempty(d, skeleton, Variants(d), Placements(d), AllowedVerifiers(d.verifierIds, q.allowedVerifiers));
  }

  lemma SelectionNonempty(skeletons: seq<ActionCandidate>, cap: nat, q: Request)
    requires skeletons != [] && ValidBounds(q.initialWidth, WidthLimit(cap, q))
    ensures Select(skeletons, cap, q) != []
  {
    WidenedIsShortest(skeletons, q.initialWidth, WidthLimit(cap, q), q.wideningMargin);
  }

  /** The best operation of a surviving subgroup expands to something. */
  lemma OperationsExpand(members: seq<ActionDefinition>, operations: seq<ActionCandidate>, cap: nat, q: Request)
    requires members != [] && forall d :: d in members ==> Survives(d, q)
    requires ValidBounds(q.initialWidth, WidthLimit(cap, q)) && operations == Select(OperationSkeletons(members), cap, q)
    ensures OverOperations(members, operations, q) != []
  {
    OperationsLength(members);
    SelectionNonempty(OperationSkeletons(members), cap, q);
    SelectedOperationsDefined(members, operations, cap, q);
    DefinitionOfOccurs(members, operations[0].id);
    SurvivorExpands(DefinitionOf(members, operations[0].id).value, operations[0], q);
    OperationsStep(members, operations, q, 0);
    OperationsPrefix(members, operations, q, 1);
  }

  lemma SomeSubgroupSelected(items: seq<ActionDefinition>, family: ActionFamily, cap: nat, q: Request) returns (name: string)
    requires items != [] && ValidBounds(q.initialWidth, WidthLimit(cap, q))
    ensures var selected := SelectedSubgroups(items, family, cap, q);
            selected != [] && name == selected[0].id && InSubgroup(items, name) != []
  {
    var names := SubgroupNames(items);
    NamesOccur(items, items[0].subgroup);
    InSubgroupMembers(items, items[0].subgroup);
    SkeletonsLength(items, family, names);
    SelectionNonempty(SubgroupSkeletons(items, family, names), cap, q);
    var selected := SelectedSubgroups(items, family, cap, q);
    SelectedNamesOccur(items, family, selected, cap, q, 0);
    name := selected[0].id;
    NamesOccur(items, name);
  }

  lemma SurvivingFamilyExpands(items: seq<ActionDefinition>, family: ActionFamily, cap: nat, q: Request)
    requires items != [] && forall d :: d in items ==> Survives(d, q)
    requires ValidBounds(q.initialWidth, WidthLimit(cap, q))
    ensures FamilyProduct(items, family, cap, q) != []
  {
    var name := SomeSubgroupSelected(items, family, cap, q);
    InSubgroupMembers(items, name);
    OperationsExpand(InSubgroup(items, name), SelectedOperations(items, name, cap, q), cap, q);
    SubgroupsStep(items, SelectedSubgroups(items, family, cap, q), cap, q, 0);
    SubgroupsPrefix(items, SelectedSubgroups(items, family, cap, q), cap, q, 1);
  }

  lemma {:induction false} NamesOccur(items: seq<ActionDefinition>, name: string)
    ensures name in SubgroupNames(items) <==> InSubgroup(items, name) != []
  {
    if items != [] {
      NamesOccur(items[..|items| - 1], name);
    }
  }

  function OfFamily(candidates: seq<ActionCandidate>, family: ActionFamily): seq<ActionCandidate> {
    if candidates == [] then []
    else
      var c := candidates[|candidates| - 1];
      OfFamily(candidates[..|candidates| - 1], family) + if c.family == family then [c] else []
  }

  lemma {:induction false} OfFamilyConcat(a: seq<ActionCandidate>, b: seq<ActionCandidate>, family: ActionFamily)
    ensures OfFamily(a + b, family) == OfFamily(a, family) + OfFamily(b, family)
  {
    if b == [] {
      assert a + b == a;
    } else {
      assert (a + b)[..|a + b| - 1] == a + b[..|b| - 1];
      OfFamilyConcat(a, b[..|b| - 1], family);
    }
  }

  lemma {:induction false} OfFamilyUniform(s: seq<ActionCandidate>, has: ActionFamily, family: ActionFamily)
    requires forall c :: c in s ==> c.family == has
    ensures OfFamily(s, family) == if has == family then s else []
  {
    if s != [] {
      var init, last := s[..|s| - 1], s[|s| - 1];
      assert s == init + [last] && last in s;
      OfFamilyUniform(init, has, family);
      assert OfFamily(s, family) == OfFamily(init, family) + if has == family then [last] else [];
    }
  }

  lemma FamilySliceUniform(defs: seq<ActionDefinition>, cap: nat, q: Request, family: ActionFamily)
    ensures forall c :: c in FamilySlice(defs, cap, q, family) ==> c.family == family
  {
    var items := FamilyDefinitions(defs, family, q);
    SurvivorsFound(defs, family, q);
    forall c | c in FamilySlice(defs, cap, q, family)
      ensures c.family == family
    {
      var d, source, i, p, v := ProductMember(c, items, family, cap, q);
    }
  }

  lemma OfFamilyAppend(a: seq<ActionCandidate>, slice: seq<ActionCandidate>, here: ActionFamily, family: ActionFamily)
    requires forall c :: c in slice ==> c.family == here
    ensures OfFamily(a + slice, family) == OfFamily(a, family) + (if here == family then slice else [])
  {
    OfFamilyConcat(a, slice, family);
    OfFamilyUniform(slice, here, family);
  }

  lemma {:induction false} FamilySliceOver(defs: seq<ActionDefinition>, cap: nat, q: Request, order: seq<ActionFamily>, family: ActionFamily)
    requires NoDuplicates(order)
    ensures OfFamily(CandidatesOver(defs, cap, q, order), family) == if family in order then FamilySlice(defs, cap, q, family) else []
    decreases |order|
  {
    if order != [] {
      var earlier, here := order[..|order| - 1], order[|order| - 1];
      assert order == earlier + [here];
      FamilySliceOver(defs, cap, q, earlier, family);
      FamilySliceUniform(defs, cap, q, here);
      OfFamilyAppend(CandidatesOver(defs, cap, q, earlier), FamilySlice(defs, cap, q, here), here, family);
    }
  }

  lemma SliceNonempty(defs: seq<ActionDefinition>, cap: nat, q: Request, family: ActionFamily)
    requires cap >= 1 && CompileSpec(defs, cap, q).Ok?
    ensures FamilySlice(defs, cap, q, family) != [] <==> FamilyDefinitions(defs, family, q) != []
  {
    var items := FamilyDefinitions(defs, family, q);
    if items != [] {
      SurvivorsFound(defs, family, q);
      SurvivingFamilyExpands(items, family, cap, q);
    } else {
      NoDefinitionsNothing(family, cap, q);
    }
  }

  lemma OrderHasNoDuplicates()
    ensures NoDuplicates(FAMILY_ORDER)
  {
  }

  /** The slice of a family among all compiled candidates. */
  lemma CompiledSlice(defs: seq<ActionDefinition>, cap: nat, q: Request, family: ActionFamily)
    ensures OfFamily(Compiled(defs, cap, q).candidates, family) == FamilySlice(defs, cap, q, family)
  {
    EveryFamilyOrdered(family);
    OrderHasNoDuplicates();
    FamilySliceOver(defs, cap, q, FAMILY_ORDER, family);
  }

  lemma TakeAtMost<T>(s: seq<T>, n: nat)
    ensures |Take(s, n)| <= n
  {
  }

  /** The candidates of a family are the first `cap` of its full product, in ranked order:
      at most `cap` of them, and at least one whenever a definition of the family survives. */
  lemma FamilyBounds(defs: seq<ActionDefinition>, cap: nat, q: Request, family: ActionFamily)
    requires cap >= 1 && CompileSpec(defs, cap, q).Ok?
    ensures var mine := OfFamily(CompileSpec(defs, cap, q).compilation.candidates, family);
            && mine == Take(FamilyProduct(FamilyDefinitions(defs, family, q), family, cap, q), cap)
            && |mine| <= cap
            && (mine != [] <==> exists i :: 0 <= i < |defs| && Survives(defs[i], q) && defs[i].family == family)
  {
    CompiledSlice(defs, cap, q, family);
    TakeAtMost(FamilyProduct(FamilyDefinitions(defs, family, q), family, cap, q), cap);
    SliceNonempty(defs, cap, q, family);
    SurvivorsFound(defs, family, q);
  }

  /** `no_safe_action` is raised exactly when no definition survives. */
  lemma NoSafeActionMeansNoSurvivor(defs: seq<ActionDefinition>, cap: nat, q: Request)
    requires cap >= 1 && CompileSpec(defs, cap, q).Ok?
    ensures CompileSpec(defs, cap, q).compilation.noSafeAction <==> !SomeSurvivor(defs, q)
  {
    var candidates := Compiled(defs, cap, q).candidates;
    if SomeSurvivor(defs, q) {
      var i :| 0 <= i < |defs| && Survives(defs[i], q);
      FamilyBounds(defs, cap, q, defs[i].family);
      assert OfFamily(candidates, defs[i].family) != [];
    } else if candidates != [] {
      var c := candidates[0];
      var family := InSomeFamily(c, defs, cap, q, FAMILY_ORDER);
      SurvivorsFound(defs, family, q);
      NoDefinitionsNothing(family, cap, q);
    }
  }
}
