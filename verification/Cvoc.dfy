/** Conservative value-of-computation selection (c3r/cvoc.py). */
module Cvoc {
  import opened Schema
  import opened Ranking

  datatype Bound = NegativeInfinity | Fin(value: real)

  /** `lower_bound`: minus infinity for an estimate that is not finite or has a negative charge. */
  function LowerBound(multiplier: real, e: ValueEstimate): Bound {
    if e.expectedGain.NotFinite? || e.totalCost.NotFinite? || e.riskPenalty.NotFinite? || e.uncertainty.NotFinite? then NegativeInfinity
    else if e.totalCost.value < 0.0 || e.riskPenalty.value < 0.0 || e.uncertainty.value < 0.0 then NegativeInfinity
    else Fin(e.expectedGain.value - e.totalCost.value - e.riskPenalty.value - multiplier * e.uncertainty.value)
  }

  predicate AtMost(a: Bound, b: Bound) {
    a.NegativeInfinity? || (b.Fin? && a.value <= b.value)
  }

  predicate Positive(b: Bound) { b.Fin? && b.value > 0.0 }

  datatype Scored = Scored(bound: Bound, candidate: ActionCandidate)

  /** The key `(lower_bound, id)` of `x` is greater than that of `y`. */
  predicate Beats(x: Scored, y: Scored) {
    !AtMost(x.bound, y.bound) || (x.bound == y.bound && StringLess(y.candidate.id, x.candidate.id))
  }

  function Score(multiplier: real, candidates: seq<ActionCandidate>, estimates: map<string, ValueEstimate>): seq<Scored> {
    if candidates == [] then []
    else
      var c := candidates[|candidates| - 1];
      Score(multiplier, candidates[..|candidates| - 1], estimates)
      + if c.id in estimates then [Scored(LowerBound(multiplier, estimates[c.id]), c)] else []
  }

  /** `max(scored, key=...)`: the first of the greatest. */
  function Best(scored: seq<Scored>): Scored
    requires scored != []
  {
    var last := scored[|scored| - 1];
    if |scored| == 1 then last
    else
      var rest := Best(scored[..|scored| - 1]);
      if Beats(last, rest) then last else rest
  }

  datatype Decision = Decision(selected: Option<ActionCandidate>, lowerBound: Bound)

  /** `select`. */
  function Select(multiplier: real, candidates: seq<ActionCandidate>, estimates: map<string, ValueEstimate>): Decision {
    var scored := Score(multiplier, candidates, estimates);
    if scored == [] then Decision(None, NegativeInfinity)
    else
      var best := Best(scored);
      Decision(if Positive(best.bound) then Some(best.candidate) else None, best.bound)
  }

  lemma {:induction false} ScoreMembers(multiplier: real, candidates: seq<ActionCandidate>, estimates: map<string, ValueEstimate>)
    ensures forall x :: x in Score(multiplier, candidates, estimates) <==>
              x.candidate in candidates && x.candidate.id in estimates && x.bound == LowerBound(multiplier, estimates[x.candidate.id])
  {
    if candidates != [] {
      ScoreMembers(multiplier, candidates[..|candidates| - 1], estimates);
      assert candidates == candidates[..|candidates| - 1] + [candidates[|candidates| - 1]];
    }
  }

  lemma BeatsTransitive(x: Scored, y: Scored, z: Scored)
    requires !Beats(x, y) && !Beats(y, z)
    ensures !Beats(x, z)
  {
    if x.bound == z.bound {
      StringLessTotal(y.candidate.id, x.candidate.id);
      StringLessTotal(z.candidate.id, y.candidate.id);
      if StringLess(z.candidate.id, x.candidate.id) && x.candidate.id != y.candidate.id && y.candidate.id != z.candidate.id {
        StringLessTransitive(x.candidate.id, y.candidate.id, z.candidate.id);
        StringLessTotal(x.candidate.id, z.candidate.id);
      }
    }
  }

  lemma {:induction false} BestIsGreatest(scored: seq<Scored>)
    requires scored != []
    ensures Best(scored) in scored && forall x :: x in scored ==> !Beats(x, Best(scored))
  {
    var init, last := scored[..|scored| - 1], scored[|scored| - 1];
    StringLessTotal(last.candidate.id, last.candidate.id);
    if |scored| > 1 {
      BestIsGreatest(init);
      var rest := Best(init);
      forall x | x in scored
        ensures !Beats(x, Best(scored))
      {
        assert x in init || x == last by { assert scored == init + [last]; }
        if x in init && Beats(last, rest) {
          NotBeaten(last, rest);
          BeatsTransitive(x, rest, last);
        }
      }
    }
  }

  lemma NotBeaten(x: Scored, y: Scored)
    requires Beats(x, y)
    ensures !Beats(y, x)
  {
    StringLessTotal(x.candidate.id, y.candidate.id);
  }

  /** The selected candidate has a positive lower bound that no estimated candidate exceeds, the
      greatest id breaking ties; nothing is selected exactly when no estimated candidate has a
      positive lower bound. */
  lemma SelectIsConservative(multiplier: real, candidates: seq<ActionCandidate>, estimates: map<string, ValueEstimate>)
    ensures var d := Select(multiplier, candidates, estimates);
            && (d.selected.Some? ==>
                  && d.selected.value in candidates && d.selected.value.id in estimates
                  && d.lowerBound == LowerBound(multiplier, estimates[d.selected.value.id]) && Positive(d.lowerBound)
                  && forall c :: c in candidates && c.id in estimates ==>
                       !Beats(Scored(LowerBound(multiplier, estimates[c.id]), c), Scored(d.lowerBound, d.selected.value)))
            && (d.selected.None? <==>
                  forall c :: c in candidates && c.id in estimates ==> !Positive(LowerBound(multiplier, estimates[c.id])))
  {
    var scored := Score(multiplier, candidates, estimates);
    ScoreMembers(multiplier, candidates, estimates);
    forall c | c in candidates && c.id in estimates
      ensures Scored(LowerBound(multiplier, estimates[c.id]), c) in scored
    {
    }
    if scored != [] {
      BestIsGreatest(scored);
    }
  }

  // ----- The bound itself

  predicate Usable(e: ValueEstimate) {
    && e.expectedGain.Finite? && e.totalCost.Finite? && e.riskPenalty.Finite? && e.uncertainty.Finite?
    && e.totalCost.value >= 0.0 && e.riskPenalty.value >= 0.0 && e.uncertainty.value >= 0.0
  }

  lemma ProductOrder(multiplier: real, x: real, y: real)
    requires multiplier >= 0.0 && x <= y
    ensures multiplier * x <= multiplier * y
  {
    assert multiplier * (y - x) >= 0.0;
    assert multiplier * (y - x) == multiplier * y - multiplier * x;
  }

  /** The bound is finite exactly for usable estimates, and never exceeds the expected gain. */
  lemma BoundIsConservative(multiplier: real, e: ValueEstimate)
    requires multiplier >= 0.0
    ensures LowerBound(multiplier, e).Fin? <==> Usable(e)
    ensures Usable(e) ==> LowerBound(multiplier, e).value <= e.expectedGain.value
    ensures Usable(e) && e.totalCost.value == 0.0 && e.riskPenalty.value == 0.0 && e.uncertainty.value == 0.0 ==>
              LowerBound(multiplier, e).value == e.expectedGain.value
  {
    if Usable(e) {
      ProductOrder(multiplier, 0.0, e.uncertainty.value);
    }
  }

  /** It rises with the gain and falls with cost and penalty one for one, and with the uncertainty at
      the rate of the multiplier. */
  lemma BoundMoves(multiplier: real, e: ValueEstimate, f: ValueEstimate, gain: real, cost: real, penalty: real, uncertainty: real)
    requires Usable(e) && Usable(f)
    requires f.expectedGain.value - e.expectedGain.value == gain && f.totalCost.value - e.totalCost.value == cost
    requires f.riskPenalty.value - e.riskPenalty.value == penalty && f.uncertainty.value - e.uncertainty.value == uncertainty
    ensures LowerBound(multiplier, f).value - LowerBound(multiplier, e).value == gain - cost - penalty - multiplier * uncertainty
  {
    Distribute(multiplier, e.uncertainty.value, f.uncertainty.value, uncertainty);
  }

  lemma Distribute(multiplier: real, x: real, y: real, d: real)
    requires y - x == d
    ensures multiplier * y - multiplier * x == multiplier * d
  {
    assert multiplier * y - multiplier * x == multiplier * (y - x);
  }

  /** What selection means in numbers: the selected bound is positive, every estimated candidate with a
      finite bound is at most as good, and one exactly as good has no greater id. */
  lemma SelectedIsBest(multiplier: real, candidates: seq<ActionCandidate>, estimates: map<string, ValueEstimate>, best: ActionCandidate)
    requires Select(multiplier, candidates, estimates).selected == Some(best)
    ensures best in candidates && best.id in estimates && Usable(estimates[best.id])
    ensures LowerBound(multiplier, estimates[best.id]).value > 0.0
    ensures forall c :: c in candidates && c.id in estimates && Usable(estimates[c.id]) ==>
              var x, y := LowerBound(multiplier, estimates[c.id]).value, LowerBound(multiplier, estimates[best.id]).value;
              x < y || (x == y && !StringLess(best.id, c.id))
  {
    SelectIsConservative(multiplier, candidates, estimates);
    forall c | c in candidates && c.id in estimates && Usable(estimates[c.id])
      ensures var x, y := LowerBound(multiplier, estimates[c.id]).value, LowerBound(multiplier, estimates[best.id]).value;
              x < y || (x == y && !StringLess(best.id, c.id))
    {
      assert !Beats(Scored(LowerBound(multiplier, estimates[c.id]), c), Scored(LowerBound(multiplier, estimates[best.id]), best));
    }
  }
}
