/** Compilation does not depend on the order in which definitions arrive: with distinct ids,
    a permuted catalogue gives the same candidates and the same widened families, and only
    permutes the masked and pruned ids. */
module CompilerOrder {
  import opened Schema
  import opened Ranking
  import opened ProgressiveWidening
  import opened CandidateCompiler
  import opened CompilerLaws

  /** The same definitions, each once, in any order. */
  ghost predicate Rearranged(a: seq<ActionDefinition>, b: seq<ActionDefinition>) {
    DistinctIds(a) && DistinctIds(b) && SameElements(a, b)
  }

  lemma CountedTwice<T>(s: seq<T>, i: nat, j: nat)
    requires i < j < |s| && s[i] == s[j]
    ensures multiset(s)[s[i]] >= 2
  {
    assert s == s[..j] + [s[j]] + s[j + 1..];
    assert s[i] in s[..j];
  }

  lemma PermutationRearranges(a: seq<ActionDefinition>, b: seq<ActionDefinition>)
    requires DistinctIds(a) && multiset(a) == multiset(b)
    ensures Rearranged(a, b)
  {
    forall d
      ensures d in a <==> d in b
    {
      assert d in a <==> d in multiset(a);
      assert d in b <==> d in multiset(b);
    }
    forall i, j | 0 <= i < j < |b|
      ensures b[i].id != b[j].id
    {
      assert b[i] in a && b[j] in a;
      if b[i].id == b[j].id {
        CountedTwice(b, i, j);
        NoDuplicatesCount(a, b[i]);
      }
    }
  }

  // ----- Grouping keeps the relation

  lemma {:induction false} FamilyDistinct(defs: seq<ActionDefinition>, family: ActionFamily, q: Request)
    requires DistinctIds(defs)
    ensures DistinctIds(FamilyDefinitions(defs, family, q))
  {
    if defs != [] {
      FamilyDistinct(defs[..|defs| - 1], family, q);
      SurvivorsFound(defs[..|defs| - 1], family, q);
      var earlier := FamilyDefinitions(defs[..|defs| - 1], family, q);
      forall i | 0 <= i < |earlier|
        ensures earlier[i].id != defs[|defs| - 1].id
      {
        assert earlier[i] in earlier;
      }
    }
  }

  lemma FamilyRearranged(a: seq<ActionDefinition>, b: seq<ActionDefinition>, family: ActionFamily, q: Request)
    requires Rearranged(a, b)
    ensures Rearranged(FamilyDefinitions(a, family, q), FamilyDefinitions(b, family, q))
  {
    FamilyDistinct(a, family, q);
    FamilyDistinct(b, family, q);
    SurvivorsFound(a, family, q);
    SurvivorsFound(b, family, q);
  }

  lemma {:induction false} SubgroupDistinct(items: seq<ActionDefinition>, name: string)
    requires DistinctIds(items)
    ensures DistinctIds(InSubgroup(items, name))
  {
    if items != [] {
      SubgroupDistinct(items[..|items| - 1], name);
      InSubgroupMembers(items[..|items| - 1], name);
      var earlier := InSubgroup(items[..|items| - 1], name);
      forall i | 0 <= i < |earlier|
        ensures earlier[i].id != items[|items| - 1].id
      {
        assert earlier[i] in earlier;
      }
    }
  }

  lemma SubgroupRearranged(a: seq<ActionDefinition>, b: seq<ActionDefinition>, name: string)
    requires Rearranged(a, b)
    ensures Rearranged(InSubgroup(a, name), InSubgroup(b, name))
  {
    SubgroupDistinct(a, name);
    SubgroupDistinct(b, name);
    InSubgroupMembers(a, name);
    InSubgroupMembers(b, name);
  }

  // ----- Operations

  /** Skeletons with pairwise different ids are determined by their id, and occur once. */
  lemma DistinctById(s: seq<ActionCandidate>)
    requires forall i, j :: 0 <= i < j < |s| ==> s[i].id != s[j].id
    ensures NoDuplicates(s)
    ensures forall x, y :: x in s && y in s && x.id == y.id ==> x == y
  {
    forall i, j | 0 <= i < j < |s|
      ensures s[i] != s[j]
    {
      assert s[i].id != s[j].id;
    }
  }

  lemma SkeletonsOfRearranged(a: seq<ActionDefinition>, b: seq<ActionDefinition>)
    requires Rearranged(a, b)
    ensures multiset(OperationSkeletons(a)) == multiset(OperationSkeletons(b)) && |a| == |b|
  {
    OperationsLength(a);
    OperationsLength(b);
    DistinctById(OperationSkeletons(a));
    DistinctById(OperationSkeletons(b));
    forall s
      ensures s in OperationSkeletons(a) <==> s in OperationSkeletons(b)
    {
      if s in OperationSkeletons(a) { SkeletonCarries(a, b, s); }
      if s in OperationSkeletons(b) { SkeletonCarries(b, a, s); }
    }
    SameElementsSameMultiset(OperationSkeletons(a), OperationSkeletons(b));
    assert |multiset(OperationSkeletons(a))| == |multiset(OperationSkeletons(b))|;
  }

  lemma SkeletonCarries(a: seq<ActionDefinition>, b: seq<ActionDefinition>, s: ActionCandidate)
    requires SameElements(a, b) && s in OperationSkeletons(a)
    ensures s in OperationSkeletons(b)
  {
    OperationsLength(a);
    OperationsLength(b);
    var i :| 0 <= i < |OperationSkeletons(a)| && OperationSkeletons(a)[i] == s;
    assert a[i] in b;
    var j :| 0 <= j < |b| && b[j] == a[i];
    assert OperationSkeletons(b)[j] == s;
  }

  lemma OperationsSelectedAlike(a: seq<ActionDefinition>, b: seq<ActionDefinition>, cap: nat, q: Request)
    requires Rearranged(a, b)
    ensures Select(OperationSkeletons(a), cap, q) == Select(OperationSkeletons(b), cap, q) && |a| == |b|
  {
    SkeletonsOfRearranged(a, b);
    OperationsLength(a);
    DistinctById(OperationSkeletons(a));
    WidenedForgetsOrder(OperationSkeletons(a), OperationSkeletons(b), q.initialWidth, WidthLimit(cap, q), q.wideningMargin);
  }

  lemma SameDefinition(a: seq<ActionDefinition>, b: seq<ActionDefinition>, id: string)
    requires Rearranged(a, b)
    ensures DefinitionOf(a, id) == DefinitionOf(b, id)
  {
    DefinitionOfOccurs(a, id);
    DefinitionOfOccurs(b, id);
    if DefinitionOf(a, id).Some? {
      var d := DefinitionOf(a, id).value;
      assert d in b;
      var i :| 0 <= i < |b| && b[i] == d;
      var e := DefinitionOf(b, id).value;
      var j :| 0 <= j < |b| && b[j] == e;
    }
  }

  lemma {:induction false} OperationsExpandAlike(a: seq<ActionDefinition>, b: seq<ActionDefinition>, operations: seq<ActionCandidate>, q: Request)
    requires Rearranged(a, b)
    ensures OverOperations(a, operations, q) == OverOperations(b, operations, q)
    decreases |operations|
  {
    if operations != [] {
      OperationsExpandAlike(a, b, operations[..|operations| - 1], q);
      SameDefinition(a, b, operations[|operations| - 1].id);
    }
  }

  // ----- Subgroups

  lemma {:induction false} BestNetIsGreatest(items: seq<ActionDefinition>)
    requires items != []
    ensures exists d :: d in items && NetUtility(d) == BestNet(items)
    ensures forall d :: d in items ==> NetUtility(d) <= BestNet(items)
  {
    var last := items[|items| - 1];
    if |items| > 1 {
      BestNetIsGreatest(items[..|items| - 1]);
      assert items == items[..|items| - 1] + [last];
    }
    assert last in items;
  }

  lemma {:induction false} LeastRiskIsLeast(items: seq<ActionDefinition>)
    requires items != []
    ensures exists d :: d in items && d.riskClass == LeastRisk(items)
    ensures forall d :: d in items ==> !StringLess(RiskValue(d.riskClass), RiskValue(LeastRisk(items)))
  {
    var last := items[|items| - 1];
    assert last in items;
    StringLessTotal(RiskValue(last.riskClass), RiskValue(last.riskClass));
    if |items| > 1 {
      var init := items[..|items| - 1];
      LeastRiskIsLeast(init);
      assert items == init + [last];
      forall d | d in items
        ensures !StringLess(RiskValue(d.riskClass), RiskValue(LeastRisk(items)))
      {
        var v, l, r := RiskValue(d.riskClass), RiskValue(last.riskClass), RiskValue(LeastRisk(init));
        if StringLess(v, l) && StringLess(l, r) {
          StringLessTransitive(v, l, r);
        }
      }
    }
  }

  lemma SubgroupSummaryAlike(a: seq<ActionDefinition>, b: seq<ActionDefinition>)
    requires SameElements(a, b) && a != [] && b != []
    ensures BestNet(a) == BestNet(b) && LeastRisk(a) == LeastRisk(b)
  {
    BestNetIsGreatest(a);
    BestNetIsGreatest(b);
    var d :| d in a && NetUtility(d) == BestNet(a);
    var e :| e in b && NetUtility(e) == BestNet(b);
    assert d in b && e in a;
    LeastRiskIsLeast(a);
    LeastRiskIsLeast(b);
    var f :| f in a && f.riskClass == LeastRisk(a);
    var g :| g in b && g.riskClass == LeastRisk(b);
    assert f in b && g in a;
    StringLessTotal(RiskValue(LeastRisk(a)), RiskValue(LeastRisk(b)));
    RiskValueInjective(LeastRisk(a), LeastRisk(b));
  }

  lemma RiskValueInjective(x: RiskClass, y: RiskClass)
    requires RiskValue(x) == RiskValue(y)
    ensures x == y
  {
    assert RiskValue(x)[0] == RiskValue(y)[0];
  }

  lemma SubgroupSkeletonAlike(a: seq<ActionDefinition>, b: seq<ActionDefinition>, family: ActionFamily, name: string)
    requires Rearranged(a, b)
    ensures SubgroupSkeleton(a, family, name) == SubgroupSkeleton(b, family, name)
    ensures name in SubgroupNames(a) <==> name in SubgroupNames(b)
  {
    SubgroupRearranged(a, b, name);
    NamesOccur(a, name);
    NamesOccur(b, name);
    var x, y := InSubgroup(a, name), InSubgroup(b, name);
    assert x != [] ==> x[0] in y;
    assert y != [] ==> y[0] in x;
    if x != [] {
      SubgroupSummaryAlike(x, y);
    }
  }

  lemma {:induction false} NamesDistinct(items: seq<ActionDefinition>)
    ensures NoDuplicates(SubgroupNames(items))
  {
    if items != [] {
      NamesDistinct(items[..|items| - 1]);
    }
  }

  lemma SubgroupCarries(a: seq<ActionDefinition>, b: seq<ActionDefinition>, family: ActionFamily, s: ActionCandidate)
    requires Rearranged(a, b) && s in SubgroupSkeletons(a, family, SubgroupNames(a))
    ensures s in SubgroupSkeletons(b, family, SubgroupNames(b))
  {
    SkeletonsLength(a, family, SubgroupNames(a));
    SkeletonsLength(b, family, SubgroupNames(b));
    var i :| 0 <= i < |SubgroupSkeletons(a, family, SubgroupNames(a))| && SubgroupSkeletons(a, family, SubgroupNames(a))[i] == s;
    var name := SubgroupNames(a)[i];
    assert name in SubgroupNames(a);
    SubgroupSkeletonAlike(a, b, family, name);
    var j :| 0 <= j < |SubgroupNames(b)| && SubgroupNames(b)[j] == name;
    assert SubgroupSkeletons(b, family, SubgroupNames(b))[j] == s;
  }

  lemma SubgroupSkeletonsDistinct(items: seq<ActionDefinition>, family: ActionFamily)
    ensures var x := SubgroupSkeletons(items, family, SubgroupNames(items));
            && |x| == |SubgroupNames(items)| && NoDuplicates(x)
            && forall s, t :: s in x && t in x && s.id == t.id ==> s == t
  {
    SkeletonsLength(items, family, SubgroupNames(items));
    NamesDistinct(items);
    DistinctById(SubgroupSkeletons(items, family, SubgroupNames(items)));
  }

  lemma SubgroupsOfRearranged(a: seq<ActionDefinition>, b: seq<ActionDefinition>, family: ActionFamily, x: seq<ActionCandidate>, y: seq<ActionCandidate>)
    requires Rearranged(a, b)
    requires x == SubgroupSkeletons(a, family, SubgroupNames(a)) && y == SubgroupSkeletons(b, family, SubgroupNames(b))
    ensures multiset(x) == multiset(y) && |SubgroupNames(a)| == |SubgroupNames(b)|
    ensures forall s, t :: s in x && t in x && s.id == t.id ==> s == t
  {
    SubgroupSkeletonsDistinct(a, family);
    SubgroupSkeletonsDistinct(b, family);
    forall s
      ensures s in x <==> s in y
    {
      if s in x { SubgroupCarries(a, b, family, s); }
      if s in y { SubgroupCarries(b, a, family, s); }
    }
    SameElementsSameMultiset(x, y);
    assert |multiset(x)| == |multiset(y)|;
  }

  lemma SubgroupsSelectedAlike(a: seq<ActionDefinition>, b: seq<ActionDefinition>, family: ActionFamily, cap: nat, q: Request)
    requires Rearranged(a, b)
    ensures SelectedSubgroups(a, family, cap, q) == SelectedSubgroups(b, family, cap, q)
    ensures |SubgroupNames(a)| == |SubgroupNames(b)|
  {
    var x := SubgroupSkeletons(a, family, SubgroupNames(a));
    var y := SubgroupSkeletons(b, family, SubgroupNames(b));
    SubgroupsOfRearranged(a, b, family, x, y);
    WidenedForgetsOrder(x, y, q.initialWidth, WidthLimit(cap, q), q.wideningMargin);
  }

  lemma SubgroupExpandsAlike(a: seq<ActionDefinition>, b: seq<ActionDefinition>, name: string, cap: nat, q: Request)
    requires Rearranged(a, b)
    ensures OverOperations(InSubgroup(a, name), SelectedOperations(a, name, cap, q), q)
         == OverOperations(InSubgroup(b, name), SelectedOperations(b, name, cap, q), q)
    ensures OperationsWiden(a, name, cap, q) == OperationsWiden(b, name, cap, q)
  {
    SubgroupRearranged(a, b, name);
    OperationsSelectedAlike(InSubgroup(a, name), InSubgroup(b, name), cap, q);
    OperationsExpandAlike(InSubgroup(a, name), InSubgroup(b, name), SelectedOperations(a, name, cap, q), q);
  }

  lemma {:induction false} SubgroupsExpandAlike(a: seq<ActionDefinition>, b: seq<ActionDefinition>, subgroups: seq<ActionCandidate>, cap: nat, q: Request)
    requires Rearranged(a, b)
    ensures OverSubgroups(a, subgroups, cap, q) == OverSubgroups(b, subgroups, cap, q)
    decreases |subgroups|
  {
    if subgroups != [] {
      SubgroupsExpandAlike(a, b, subgroups[..|subgroups| - 1], cap, q);
      SubgroupExpandsAlike(a, b, subgroups[|subgroups| - 1].id, cap, q);
    }
  }

  lemma ReachedAlike(a: seq<ActionDefinition>, b: seq<ActionDefinition>, subgroups: seq<ActionCandidate>, cap: nat, q: Request, k: nat)
    requires Rearranged(a, b) && k < |subgroups|
    ensures ReachedAndWidens(a, subgroups, cap, q, k) == ReachedAndWidens(b, subgroups, cap, q, k)
  {
    SubgroupsExpandAlike(a, b, subgroups[..k], cap, q);
    SubgroupExpandsAlike(a, b, subgroups[k].id, cap, q);
  }

  lemma WidenAlike(a: seq<ActionDefinition>, b: seq<ActionDefinition>, subgroups: seq<ActionCandidate>, cap: nat, q: Request, n: nat)
    requires Rearranged(a, b) && n <= |subgroups|
    ensures ReachedWiden(a, subgroups, cap, q, n) == ReachedWiden(b, subgroups, cap, q, n)
  {
    forall k | 0 <= k < n
      ensures ReachedAndWidens(a, subgroups, cap, q, k) == ReachedAndWidens(b, subgroups, cap, q, k)
    {
      ReachedAlike(a, b, subgroups, cap, q, k);
    }
  }

  lemma FamilyAlike(a: seq<ActionDefinition>, b: seq<ActionDefinition>, family: ActionFamily, cap: nat, q: Request)
    requires Rearranged(a, b)
    ensures FamilyProduct(a, family, cap, q) == FamilyProduct(b, family, cap, q)
    ensures FamilyWidens(a, family, cap, q) == FamilyWidens(b, family, cap, q)
  {
    SubgroupsSelectedAlike(a, b, family, cap, q);
    var selected := SelectedSubgroups(a, family, cap, q);
    SubgroupsExpandAlike(a, b, selected, cap, q);
    WidenAlike(a, b, selected, cap, q, |selected|);
  }

  lemma {:induction false} FamiliesAlike(a: seq<ActionDefinition>, b: seq<ActionDefinition>, cap: nat, q: Request, order: seq<ActionFamily>)
    requires Rearranged(a, b)
    ensures CandidatesOver(a, cap, q, order) == CandidatesOver(b, cap, q, order)
    ensures WidenedOver(a, cap, q, order) == WidenedOver(b, cap, q, order)
    decreases |order|
  {
    if order != [] {
      FamiliesAlike(a, b, cap, q, order[..|order| - 1]);
      FamilyRearranged(a, b, order[|order| - 1], q);
      FamilyAlike(FamilyDefinitions(a, order[|order| - 1], q), FamilyDefinitions(b, order[|order| - 1], q), order[|order| - 1], cap, q);
    }
  }

  // ----- Masked and pruned ids

  lemma {:induction false} MaskedIdsCount(defs: seq<ActionDefinition>, q: Request)
    requires DistinctIds(defs)
    ensures NoDuplicates(MaskedIds(defs, q)) && NoDuplicates(PrunedIds(defs, q))
    ensures forall id :: id in MaskedIds(defs, q) <==> exists d :: d in defs && d.id == id && Masked(d, q)
    ensures forall id :: id in PrunedIds(defs, q) <==> exists d :: d in defs && d.id == id && Pruned(d, q)
  {
    if defs != [] {
      var init, d := defs[..|defs| - 1], defs[|defs| - 1];
      MaskedIdsCount(init, q);
      assert defs == init + [d];
      assert forall e :: e in init ==> e.id != d.id;
      assert d.id !in MaskedIds(init, q) && d.id !in PrunedIds(init, q);
    }
  }

  lemma IdsPermuted(a: seq<ActionDefinition>, b: seq<ActionDefinition>, q: Request)
    requires Rearranged(a, b)
    ensures multiset(MaskedIds(a, q)) == multiset(MaskedIds(b, q))
    ensures multiset(PrunedIds(a, q)) == multiset(PrunedIds(b, q))
  {
    MaskedIdsCount(a, q);
    MaskedIdsCount(b, q);
    SameElementsSameMultiset(MaskedIds(a, q), MaskedIds(b, q));
    SameElementsSameMultiset(PrunedIds(a, q), PrunedIds(b, q));
  }

  lemma SurvivorCarries(a: seq<ActionDefinition>, b: seq<ActionDefinition>, q: Request)
    requires SameElements(a, b) && SomeSurvivor(a, q)
    ensures SomeSurvivor(b, q)
  {
    var i :| 0 <= i < |a| && Survives(a[i], q);
    assert a[i] in b;
  }

  lemma SurvivorsAlike(a: seq<ActionDefinition>, b: seq<ActionDefinition>, q: Request)
    requires SameElements(a, b)
    ensures SomeSurvivor(a, q) <==> SomeSurvivor(b, q)
  {
    if SomeSurvivor(a, q) {
      SurvivorCarries(a, b, q);
    }
    if SomeSurvivor(b, q) {
      SurvivorCarries(b, a, q);
    }
  }

  ghost predicate SameUpToIds(x: Compilation, y: Compilation) {
    && x.candidates == y.candidates
    && x.widenedFamilies == y.widenedFamilies
    && x.noSafeAction == y.noSafeAction
    && multiset(x.maskedIds) == multiset(y.maskedIds)
    && multiset(x.prunedIds) == multiset(y.prunedIds)
  }

  lemma CompiledAlike(a: seq<ActionDefinition>, b: seq<ActionDefinition>, cap: nat, q: Request)
    requires Rearranged(a, b)
    ensures SameUpToIds(Compiled(a, cap, q), Compiled(b, cap, q))
  {
    FamiliesAlike(a, b, cap, q, FAMILY_ORDER);
    IdsPermuted(a, b, q);
  }

  ghost predicate SameOutcome(x: Result, y: Result) {
    match x
    case Err(e) => y == Err(e)
    case Ok(c) => y.Ok? && SameUpToIds(c, y.compilation)
  }

  lemma OutcomeAlike(someSurvivor: bool, cap: nat, q: Request, x: Compilation, y: Compilation)
    requires SameUpToIds(x, y)
    ensures SameOutcome(OutcomeOf(someSurvivor, cap, q, x), OutcomeOf(someSurvivor, cap, q, y))
  {
  }

  /** Permuting the catalogue changes nothing but the order of the masked and pruned ids. */
  lemma OrderDoesNotMatter(a: seq<ActionDefinition>, b: seq<ActionDefinition>, cap: nat, q: Request)
    requires DistinctIds(a) && multiset(a) == multiset(b)
    ensures SameOutcome(CompileSpec(a, cap, q), CompileSpec(b, cap, q))
  {
    PermutationRearranges(a, b);
    SurvivorsAlike(a, b, q);
    CompiledAlike(a, b, cap, q);
    OutcomeAlike(SomeSurvivor(a, q), cap, q, Compiled(a, cap, q), Compiled(b, cap, q));
  }
}
