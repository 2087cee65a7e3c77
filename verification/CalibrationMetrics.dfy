/** Calibration metrics over held-out examples (c3r/system_one/calibration_fit.py), over reals,
    with the probability vectors given and the logarithm a parameter. */
module CalibrationMetrics {
  import opened Ranking

  datatype Example = Example(probabilities: seq<real>, labelIndex: int)

  datatype Outcome = Outcome(confidence: real, correct: bool)

  datatype RiskCoveragePoint = RiskCoveragePoint(coverage: real, selectiveRisk: real, accepted: nat)

  datatype BucketError = BucketError(size: nat, error: real)

  datatype Metrics = Metrics(accuracy: real, ece: real, mce: real, riskCoverage: seq<RiskCoveragePoint>)

  datatype Failure = NoExamples | EmptyVector | LabelOutOfRange | NoBucket

  /** The report: the calibration metrics, the mean Brier score and the mean negative log-likelihood. */
  datatype Result = Measured(metrics: Metrics, brier: real, nll: real) | Failed(failure: Failure)

  /** What a softmax yields, as far as the metrics need it: every entry lies between zero and one. */
  predicate Bounded(e: Example) {
    forall i :: 0 <= i < |e.probabilities| ==> 0.0 <= e.probabilities[i] <= 1.0
  }

  predicate AllBounded(examples: seq<Example>) {
    forall i :: 0 <= i < |examples| ==> Bounded(examples[i])
  }

  /** `max(range(len(p)), key=p.__getitem__)`: the first index of a greatest entry. */
  function ArgMax(p: seq<real>): (k: nat)
    requires p != []
    ensures k < |p|
    ensures forall i :: 0 <= i < |p| ==> p[i] <= p[k]
    ensures forall i :: 0 <= i < k ==> p[i] < p[k]
  {
    if |p| == 1 then 0
    else
      var k := ArgMax(p[..|p| - 1]);
      if p[|p| - 1] > p[k] then |p| - 1 else k
  }

  function OutcomeOf(e: Example): Outcome
    requires e.probabilities != []
  {
    Outcome(e.probabilities[ArgMax(e.probabilities)], ArgMax(e.probabilities) == e.labelIndex)
  }

  /** Which bucket an outcome falls in. */
  type Placement = Outcome -> int

  /** `min(int(confidence * bins), bins - 1)`: the last bucket for a confidence of one. */
  function BucketOf(confidence: real, bins: int): int {
    var k := (confidence * bins as real).Floor;
    if k < bins - 1 then k else bins - 1
  }

  function EqualWidth(bins: int): Placement { (o: Outcome) => BucketOf(o.confidence, bins) }

  lemma ProductNonnegative(a: real, b: real)
    requires a >= 0.0 && b >= 0.0
    ensures a * b >= 0.0
  {
  }

  lemma BucketInRange(confidence: real, bins: int)
    requires 0.0 <= confidence <= 1.0 && bins > 0
    ensures 0 <= BucketOf(confidence, bins) < bins
  {
    ProductNonnegative(confidence, bins as real);
  }

  // ----- What each example contributes

  predicate Usable(e: Example) {
    e.probabilities != [] && 0 <= e.labelIndex < |e.probabilities|
  }

  /** The error an example raises, if any: an empty vector, a bad label, or no bucket to put it in. */
  function FailureOf(e: Example, bins: int): seq<Failure> {
    if e.probabilities == [] then [EmptyVector]
    else if !(0 <= e.labelIndex < |e.probabilities|) then [LabelOutOfRange]
    else if bins <= 0 then [NoBucket]
    else []
  }

  /** The error of the first example that raises one. */
  function FirstFailure(examples: seq<Example>, bins: int): seq<Failure> {
    if examples == [] then []
    else if FailureOf(examples[0], bins) != [] then FailureOf(examples[0], bins)
    else FirstFailure(examples[1..], bins)
  }

  predicate AllUsable(examples: seq<Example>) {
    forall i :: 0 <= i < |examples| ==> Usable(examples[i])
  }

  lemma {:induction false} FailureSkips(examples: seq<Example>, bins: int, n: nat)
    requires n <= |examples| && bins > 0 && AllUsable(examples[..n])
    ensures FirstFailure(examples, bins) == FirstFailure(examples[n..], bins)
  {
    if n > 0 {
      assert examples[..n][0] == examples[0];
      assert examples[1..][..n - 1] == examples[..n][1..];
      FailureSkips(examples[1..], bins, n - 1);
      assert examples[1..][n - 1..] == examples[n..];
    }
  }

  lemma FailureFrom(examples: seq<Example>, bins: int, n: nat)
    requires n <= |examples| && AllUsable(examples[..n]) && (n > 0 ==> bins > 0)
    ensures FirstFailure(examples, bins) == FirstFailure(examples[n..], bins)
  {
    if n > 0 {
      FailureSkips(examples, bins, n);
    } else {
      assert examples[n..] == examples;
    }
  }

  lemma FirstFailureIs(examples: seq<Example>, bins: int, i: nat)
    requires i < |examples|
    ensures FailureOf(examples[i], bins) != [] ==> FirstFailure(examples[i..], bins) == FailureOf(examples[i], bins)
  {
  }

  lemma {:induction false} NoFailure(examples: seq<Example>, bins: int)
    ensures examples != [] ==> (FirstFailure(examples, bins) == [] <==> bins > 0 && AllUsable(examples))
  {
    if examples != [] && Usable(examples[0]) && bins > 0 {
      NoFailure(examples[1..], bins);
      assert AllUsable(examples) <==> AllUsable(examples[1..]) by {
        if AllUsable(examples[1..]) {
          forall i | 0 <= i < |examples|
            ensures Usable(examples[i])
          {
            assert i > 0 ==> examples[i] == examples[1..][i - 1];
          }
        }
      }
    }
  }

  function Outcomes(examples: seq<Example>): (r: seq<Outcome>)
    requires AllUsable(examples)
    ensures |r| == |examples|
    ensures forall i :: 0 <= i < |r| ==> r[i] == OutcomeOf(examples[i])
  {
    if examples == [] then []
    else Outcomes(examples[..|examples| - 1]) + [OutcomeOf(examples[|examples| - 1])]
  }

  lemma OutcomesGrow(seen: seq<Example>, e: Example)
    requires AllUsable(seen) && Usable(e)
    ensures AllUsable(seen + [e]) && Outcomes(seen + [e]) == Outcomes(seen) + [OutcomeOf(e)]
  {
    assert (seen + [e])[..|seen|] == seen;
  }

  /** Outcomes whose confidence lies between zero and one. */
  predicate Confident(outcomes: seq<Outcome>) {
    forall i :: 0 <= i < |outcomes| ==> 0.0 <= outcomes[i].confidence <= 1.0
  }

  lemma OutcomesConfident(examples: seq<Example>)
    requires AllUsable(examples) && AllBounded(examples)
    ensures Confident(Outcomes(examples))
  {
    forall i | 0 <= i < |examples|
      ensures 0.0 <= Outcomes(examples)[i].confidence <= 1.0
    {
      assert Bounded(examples[i]);
    }
  }

  predicate PlacedWithin(outcomes: seq<Outcome>, place: Placement, bins: int) {
    forall i :: 0 <= i < |outcomes| ==> 0 <= place(outcomes[i]) < bins
  }

  lemma EqualWidthPlaces(outcomes: seq<Outcome>, bins: int)
    requires Confident(outcomes) && bins > 0
    ensures PlacedWithin(outcomes, EqualWidth(bins), bins)
  {
    forall i | 0 <= i < |outcomes|
      ensures 0 <= EqualWidth(bins)(outcomes[i]) < bins
    {
      BucketInRange(outcomes[i].confidence, bins);
    }
  }

  function InBucket(outcomes: seq<Outcome>, place: Placement, k: nat): seq<Outcome> {
    if outcomes == [] then []
    else
      var earlier, o := InBucket(outcomes[..|outcomes| - 1], place, k), outcomes[|outcomes| - 1];
      if place(o) == k then earlier + [o] else earlier
  }

  // ----- Proper scores

  function Square(x: real): real { x * x }

  function Target(labelIndex: int, i: nat): real { if i == labelIndex then 1.0 else 0.0 }

  /** The squared distance of the first `k` probabilities from the label's indicator. */
  function SquaredErrors(p: seq<real>, labelIndex: int, k: nat): real
    requires k <= |p|
  {
    if k == 0 then 0.0 else SquaredErrors(p, labelIndex, k - 1) + Square(p[k - 1] - Target(labelIndex, k - 1))
  }

  const FLOOR: real := 0.000000000001

  function AtLeastFloor(x: real): real { if x >= FLOOR then x else FLOOR }

  /** The accumulators `brier` and `nll`. */
  datatype Scores = Scores(brier: real, nll: real)

  function Scored(log: real -> real, e: Example, before: Scores): Scores
    requires Usable(e)
  {
    Scores(before.brier + SquaredErrors(e.probabilities, e.labelIndex, |e.probabilities|),
           before.nll - log(AtLeastFloor(e.probabilities[e.labelIndex])))
  }

  function ScoresOf(log: real -> real, examples: seq<Example>): Scores
    requires AllUsable(examples)
  {
    if examples == [] then Scores(0.0, 0.0)
    else Scored(log, examples[|examples| - 1], ScoresOf(log, examples[..|examples| - 1]))
  }

  lemma ScoresGrow(log: real -> real, seen: seq<Example>, e: Example)
    requires AllUsable(seen) && AllUsable(seen + [e]) && Usable(e)
    ensures ScoresOf(log, seen + [e]) == Scored(log, e, ScoresOf(log, seen))
  {
    assert (seen + [e])[..|seen|] == seen;
  }

  // ----- Sums over outcomes

  datatype Tally = Tally(size: nat, confidence: real, hits: nat)

  function Plus(a: Tally, b: Tally): Tally {
    Tally(a.size + b.size, a.confidence + b.confidence, a.hits + b.hits)
  }

  function One(o: Outcome): Tally { Tally(1, o.confidence, if o.correct then 1 else 0) }

  function TallyOf(s: seq<Outcome>): (t: Tally)
    ensures t.size == |s| && t.hits <= |s|
    ensures s == [] ==> t == Tally(0, 0.0, 0)
  {
    if s == [] then Tally(0, 0.0, 0) else Plus(TallyOf(s[..|s| - 1]), One(s[|s| - 1]))
  }

  function Average(sum: real, n: nat): real
    requires n > 0
  {
    sum / n as real
  }

  function Abs(x: real): real { if x >= 0.0 then x else -x }

  function ErrorOf(t: Tally): real
    requires t.size > 0
  {
    Abs(Average(t.confidence, t.size) - Average(t.hits as real, t.size))
  }

  /** The tally of every bucket, empty or not. */
  function BucketTally(outcomes: seq<Outcome>, place: Placement): nat -> Tally {
    (k: nat) => TallyOf(InBucket(outcomes, place, k))
  }

  /** The first `k` of some tallies, without the empty ones. */
  function NonEmpty(tally: nat -> Tally, k: nat): (r: seq<Tally>)
    ensures AllSized(r)
  {
    if k == 0 then [] else Keep(NonEmpty(tally, k - 1), tally(k - 1))
  }

  /** The tallies of the nonempty ones among the first `k` buckets. */
  function BucketTallies(outcomes: seq<Outcome>, place: Placement, k: nat): (r: seq<Tally>)
    ensures AllSized(r)
  {
    NonEmpty(BucketTally(outcomes, place), k)
  }

  function Keep(tallies: seq<Tally>, t: Tally): seq<Tally> {
    if t.size == 0 then tallies else tallies + [t]
  }

  predicate AllSized(tallies: seq<Tally>) { forall i :: 0 <= i < |tallies| ==> tallies[i].size > 0 }

  function Errors(tallies: seq<Tally>): (r: seq<BucketError>)
    requires AllSized(tallies)
    ensures |r| == |tallies|
    ensures forall i :: 0 <= i < |r| ==> r[i] == BucketError(tallies[i].size, ErrorOf(tallies[i]))
  {
    if tallies == [] then []
    else
      var last := tallies[|tallies| - 1];
      Errors(tallies[..|tallies| - 1]) + [BucketError(last.size, ErrorOf(last))]
  }

  function Times(n: nat, x: real): real { n as real * x }

  function WeightedSum(errors: seq<BucketError>): real {
    if errors == [] then 0.0
    else WeightedSum(errors[..|errors| - 1]) + Times(errors[|errors| - 1].size, errors[|errors| - 1].error)
  }

  function Sizes(errors: seq<BucketError>): nat {
    if errors == [] then 0 else Sizes(errors[..|errors| - 1]) + errors[|errors| - 1].size
  }

  function Greatest(errors: seq<BucketError>): (m: real)
    ensures errors == [] ==> m == 0.0
    ensures errors != [] ==> exists i :: 0 <= i < |errors| && m == errors[i].error
    ensures forall i :: 0 <= i < |errors| ==> errors[i].error <= m
  {
    if errors == [] then 0.0
    else if |errors| == 1 then errors[0].error
    else
      var m, last := Greatest(errors[..|errors| - 1]), errors[|errors| - 1].error;
      if last > m then last else m
  }

  // ----- Risk against coverage

  predicate MoreConfident(a: Outcome, b: Outcome) { a.confidence > b.confidence }

  function ByConfidence(outcomes: seq<Outcome>): seq<Outcome> { Sort(outcomes, MoreConfident) }

  /** `max(1, ceil(count * quarters / 4))`. */
  function Quota(count: nat, quarters: nat): nat {
    var c := (count * quarters + 3) / 4;
    if c < 1 then 1 else c
  }

  /** Drops every entry that repeats its predecessor. */
  function Distinct(s: seq<nat>): seq<nat> {
    if |s| <= 1 then s
    else if s[|s| - 1] == s[|s| - 2] then Distinct(s[..|s| - 1])
    else Distinct(s[..|s| - 1]) + [s[|s| - 1]]
  }

  function AcceptedCounts(count: nat): seq<nat> {
    Distinct([Quota(count, 1), Quota(count, 2), Quota(count, 3), Quota(count, 4)])
  }

  ghost predicate Increasing(s: seq<nat>) { forall i, j :: 0 <= i < j < |s| ==> s[i] < s[j] }

  ghost predicate Ascending(s: seq<nat>) { forall i, j :: 0 <= i < j < |s| ==> s[i] <= s[j] }

  lemma DistinctStep(s: seq<nat>, init: seq<nat>)
    requires |s| > 1 && init == s[..|s| - 1]
    ensures Distinct(s) == if s[|s| - 1] == init[|init| - 1] then Distinct(init) else Distinct(init) + [s[|s| - 1]]
    ensures s == init + [s[|s| - 1]]
  {
  }

  lemma {:induction false} DistinctSorted(s: seq<nat>)
    requires Ascending(s)
    ensures Increasing(Distinct(s)) && forall c :: c in Distinct(s) <==> c in s
    ensures s != [] ==> Distinct(s) != [] && Distinct(s)[|Distinct(s)| - 1] == s[|s| - 1]
  {
    if |s| > 1 {
      var init, last := s[..|s| - 1], s[|s| - 1];
      DistinctSorted(init);
      DistinctStep(s, init);
      if last != init[|init| - 1] {
        IncreasingGrows(Distinct(init), last);
      }
    }
  }

  lemma IncreasingGrows(s: seq<nat>, last: nat)
    requires Increasing(s) && s != [] && s[|s| - 1] < last
    ensures Increasing(s + [last])
  {
  }

  /** The counts are the set of the four quotas, in increasing order, within 1..count. */
  lemma AcceptedCountsSorted(count: nat)
    requires count > 0
    ensures var r := AcceptedCounts(count);
            && Increasing(r)
            && (forall c :: c in r <==> c in {Quota(count, 1), Quota(count, 2), Quota(count, 3), Quota(count, 4)})
            && (forall i :: 0 <= i < |r| ==> 1 <= r[i] <= count)
            && r != [] && r[|r| - 1] == count
  {
    var four := [Quota(count, 1), Quota(count, 2), Quota(count, 3), Quota(count, 4)];
    assert 1 <= four[0] <= four[1] <= four[2] <= four[3] == count;
    DistinctSorted(four);
    var r := AcceptedCounts(count);
    forall i | 0 <= i < |r|
      ensures 1 <= r[i] <= count
    {
      assert r[i] in r;
    }
  }

  function Point(ranked: seq<Outcome>, accepted: nat): RiskCoveragePoint
    requires 0 < accepted <= |ranked|
  {
    RiskCoveragePoint(Average(accepted as real, |ranked|),
                      1.0 - Average(TallyOf(ranked[..accepted]).hits as real, accepted), accepted)
  }

  function Points(ranked: seq<Outcome>, counts: seq<nat>): (r: seq<RiskCoveragePoint>)
    requires forall i :: 0 <= i < |counts| ==> 0 < counts[i] <= |ranked|
    ensures |r| == |counts|
    ensures forall i :: 0 <= i < |r| ==> r[i] == Point(ranked, counts[i])
  {
    if counts == [] then []
    else Points(ranked, counts[..|counts| - 1]) + [Point(ranked, counts[|counts| - 1])]
  }

  function MetricsOf(outcomes: seq<Outcome>, place: Placement, bins: nat): Metrics
    requires outcomes != []
  {
    var errors := Errors(BucketTallies(outcomes, place, bins));
    AcceptedCountsSorted(|outcomes|);
    SortKeeps(outcomes, MoreConfident);
    Metrics(Average(TallyOf(outcomes).hits as real, |outcomes|),
            Average(WeightedSum(errors), |outcomes|),
            Greatest(errors),
            Points(ByConfidence(outcomes), AcceptedCounts(|outcomes|)))
  }

  function Report(outcomes: seq<Outcome>, bins: nat, scores: Scores): Result
    requires outcomes != []
  {
    Measured(MetricsOf(outcomes, EqualWidth(bins), bins), Average(scores.brier, |outcomes|), Average(scores.nll, |outcomes|))
  }

  function Spec(log: real -> real, examples: seq<Example>, bins: int): Result {
    var failures := FirstFailure(examples, bins);
    if examples == [] then Failed(NoExamples)
    else if failures != [] then Failed(failures[0])
    else
      NoFailure(examples, bins);
      Report(Outcomes(examples), bins, ScoresOf(log, examples))
  }

  // ----- The loops of `calibration_metrics`

  predicate Distributed(buckets: seq<seq<Outcome>>, outcomes: seq<Outcome>, place: Placement) {
    forall k :: 0 <= k < |buckets| ==> buckets[k] == InBucket(outcomes, place, k)
  }

  lemma PlaceOne(buckets: seq<seq<Outcome>>, outcomes: seq<Outcome>, place: Placement, o: Outcome)
    requires Distributed(buckets, outcomes, place) && 0 <= place(o) < |buckets|
    ensures Distributed(buckets[place(o) := buckets[place(o)] + [o]], outcomes + [o], place)
  {
    assert (outcomes + [o])[..|outcomes|] == outcomes;
  }

  method PlaceInBucket(buckets: seq<seq<Outcome>>, ghost outcomes: seq<Outcome>, outcome: Outcome, bins: int)
    returns (r: seq<seq<Outcome>>)
    requires Distributed(buckets, outcomes, EqualWidth(bins)) && |buckets| == bins > 0 && 0.0 <= outcome.confidence <= 1.0
    ensures |r| == bins && Distributed(r, outcomes + [outcome], EqualWidth(bins))
  {
    BucketInRange(outcome.confidence, bins);
    var bucket := BucketOf(outcome.confidence, bins);
    PlaceOne(buckets, outcomes, EqualWidth(bins), outcome);
    r := buckets[bucket := buckets[bucket] + [outcome]];
  }

  /** What the accumulators hold after the examples seen so far. */
  predicate Tallied(log: real -> real, seen: seq<Example>, bins: int, correct: nat, scores: Scores, outcomes: seq<Outcome>) {
    && AllUsable(seen) && (seen != [] ==> bins > 0)
    && outcomes == Outcomes(seen) && correct == TallyOf(outcomes).hits && scores == ScoresOf(log, seen)
  }

  method SquaredError(e: Example) returns (sum: real)
    ensures sum == SquaredErrors(e.probabilities, e.labelIndex, |e.probabilities|)
  {
    sum := 0.0;
    for i := 0 to |e.probabilities|
      invariant sum == SquaredErrors(e.probabilities, e.labelIndex, i)
    {
      sum := sum + Square(e.probabilities[i] - Target(e.labelIndex, i));
    }
  }

  method Score(log: real -> real, e: Example, scores: Scores) returns (scores': Scores)
    requires Usable(e)
    ensures scores' == Scored(log, e, scores)
  {
    var squared := SquaredError(e);
    scores' := Scores(scores.brier + squared, scores.nll - log(AtLeastFloor(e.probabilities[e.labelIndex])));
  }

  method Predict(e: Example) returns (outcome: Outcome)
    requires Usable(e)
    ensures outcome == OutcomeOf(e)
  {
    var predicted := ArgMax(e.probabilities);
    outcome := Outcome(e.probabilities[predicted], predicted == e.labelIndex);
  }

  lemma ConfidenceInRange(e: Example)
    requires Usable(e) && Bounded(e)
    ensures 0.0 <= OutcomeOf(e).confidence <= 1.0
  {
  }

  lemma TalliedGrows(log: real -> real, seen: seq<Example>, e: Example, bins: int, correct: nat, scores: Scores, outcomes: seq<Outcome>)
    requires Tallied(log, seen, bins, correct, scores, outcomes) && Usable(e) && bins > 0
    ensures Tallied(log, seen + [e], bins, if OutcomeOf(e).correct then correct + 1 else correct, Scored(log, e, scores), outcomes + [OutcomeOf(e)])
  {
    OutcomesGrow(seen, e);
    ScoresGrow(log, seen, e);
    TallyGrows(outcomes, OutcomeOf(e));
  }

  /** One turn of the loop, up to placing the outcome. */
  method Absorb(log: real -> real, ghost seen: seq<Example>, e: Example, bins: int, correct: nat, scores: Scores, ghost outcomes: seq<Outcome>)
    returns (correct': nat, scores': Scores, outcome: Outcome)
    requires Tallied(log, seen, bins, correct, scores, outcomes) && Bounded(e) && FailureOf(e, bins) == []
    ensures Tallied(log, seen + [e], bins, correct', scores', outcomes + [outcome]) && 0.0 <= outcome.confidence <= 1.0
  {
    outcome := Predict(e);
    correct' := if outcome.correct then correct + 1 else correct;
    scores' := Score(log, e, scores);
    TalliedGrows(log, seen, e, bins, correct, scores, outcomes);
    ConfidenceInRange(e);
  }

  predicate Filled(log: real -> real, examples: seq<Example>, bins: int, correct: nat, scores: Scores, outcomes: seq<Outcome>, buckets: seq<seq<Outcome>>) {
    Tallied(log, examples, bins, correct, scores, outcomes) && |buckets| == bins && Distributed(buckets, outcomes, EqualWidth(bins))
  }

  lemma EmptyDistributed(buckets: seq<seq<Outcome>>, place: Placement)
    requires forall k :: 0 <= k < |buckets| ==> buckets[k] == []
    ensures Distributed(buckets, [], place)
  {
  }

  method FillBuckets(log: real -> real, examples: seq<Example>, bins: int)
    returns (failures: seq<Failure>, correct: nat, scores: Scores, outcomes: seq<Outcome>, buckets: seq<seq<Outcome>>)
    requires AllBounded(examples)
    ensures failures == FirstFailure(examples, bins)
    ensures failures == [] && examples != [] ==> Filled(log, examples, bins, correct, scores, outcomes, buckets)
  {
    failures, correct, scores, outcomes := [], 0, Scores(0.0, 0.0), [];
    buckets := seq(if bins > 0 then bins else 0, _ => []);
    EmptyDistributed(buckets, EqualWidth(bins));
    for i := 0 to |examples|
      invariant failures == [] && Tallied(log, examples[..i], bins, correct, scores, outcomes)
      invariant |buckets| == (if bins > 0 then bins else 0) && Distributed(buckets, outcomes, EqualWidth(bins))
    {
      FailureFrom(examples, bins, i);
      FirstFailureIs(examples, bins, i);
      failures := FailureOf(examples[i], bins);
      if failures != [] {
        return;
      }
      var outcome: Outcome;
      correct, scores, outcome := Absorb(log, examples[..i], examples[i], bins, correct, scores, outcomes);
      buckets := PlaceInBucket(buckets, outcomes, outcome, bins);
      outcomes := outcomes + [outcome];
      assert examples[..i + 1] == examples[..i] + [examples[i]];
    }
    assert examples[..|examples|] == examples;
    NoFailure(examples, bins);
  }

  method BucketErrors(buckets: seq<seq<Outcome>>, outcomes: seq<Outcome>, place: Placement) returns (errors: seq<BucketError>)
    requires Distributed(buckets, outcomes, place)
    ensures errors == Errors(BucketTallies(outcomes, place, |buckets|))
  {
    errors := [];
    for k := 0 to |buckets|
      invariant errors == Errors(BucketTallies(outcomes, place, k))
    {
      if buckets[k] != [] {
        var t := TallyOf(buckets[k]);
        ghost var before := BucketTallies(outcomes, place, k);
        assert (before + [t])[..|before|] == before;
        errors := errors + [BucketError(|buckets[k]|, ErrorOf(t))];
      }
    }
  }

  method CalibrationMetrics(log: real -> real, examples: seq<Example>, bins: int) returns (r: Result)
    requires AllBounded(examples)
    ensures r == Spec(log, examples, bins)
  {
    if examples == [] {
      return Failed(NoExamples);
    }
    var failures, correct, scores, outcomes, buckets := FillBuckets(log, examples, bins);
    if failures != [] {
      return Failed(failures[0]);
    }
    var count, ranked := |outcomes|, ByConfidence(outcomes);
    var errors := BucketErrors(buckets, outcomes, EqualWidth(bins));
    AcceptedCountsSorted(count);
    SortKeeps(outcomes, MoreConfident);
    var points := Points(ranked, AcceptedCounts(count));
    return Measured(Metrics(Average(correct as real, count), Average(WeightedSum(errors), count), Greatest(errors), points),
                    Average(scores.brier, count), Average(scores.nll, count));
  }

  // ----- The buckets partition the outcomes

  function Total(tallies: seq<Tally>): Tally {
    if tallies == [] then Tally(0, 0.0, 0) else Plus(Total(tallies[..|tallies| - 1]), tallies[|tallies| - 1])
  }

  lemma TotalGrows(tallies: seq<Tally>, t: Tally)
    ensures Total(tallies + [t]) == Plus(Total(tallies), t)
  {
    assert (tallies + [t])[..|tallies|] == tallies;
  }

  lemma TallyGrows(s: seq<Outcome>, o: Outcome)
    ensures TallyOf(s + [o]) == Plus(TallyOf(s), One(o))
  {
    assert (s + [o])[..|s|] == s;
  }

  lemma PlusNothing(t: Tally)
    ensures Plus(t, Tally(0, 0.0, 0)) == t
  {
  }

  lemma PlusSwaps(a: Tally, b: Tally, c: Tally)
    ensures Plus(Plus(a, b), c) == Plus(Plus(a, c), b) == Plus(a, Plus(b, c))
  {
  }

  /** What the first `k` of some tallies add up to. */
  function SumOver(tally: nat -> Tally, k: nat): Tally {
    if k == 0 then Tally(0, 0.0, 0) else Plus(SumOver(tally, k - 1), tally(k - 1))
  }

  lemma OneMoreTally(tallies: seq<Tally>, t: Tally)
    requires t.size == 0 ==> t == Tally(0, 0.0, 0)
    ensures Total(Keep(tallies, t)) == Plus(Total(tallies), t)
  {
    if t.size == 0 {
      PlusNothing(Total(tallies));
    } else {
      TotalGrows(tallies, t);
    }
  }

  lemma {:induction false} EmptyDoNotMatter(tally: nat -> Tally, k: nat)
    requires forall j: nat :: tally(j).size == 0 ==> tally(j) == Tally(0, 0.0, 0)
    ensures Total(NonEmpty(tally, k)) == SumOver(tally, k)
  {
    if k > 0 {
      EmptyDoNotMatter(tally, k - 1);
      var kept, t := NonEmpty(tally, k - 1), tally(k - 1);
      assert NonEmpty(tally, k) == Keep(kept, t) && SumOver(tally, k) == Plus(SumOver(tally, k - 1), t);
      OneMoreTally(kept, t);
    }
  }

  lemma EmptyBucketsDoNotMatter(outcomes: seq<Outcome>, place: Placement, k: nat)
    ensures Total(BucketTallies(outcomes, place, k)) == SumOver(BucketTally(outcomes, place), k)
  {
    var tally := BucketTally(outcomes, place);
    forall j: nat
      ensures tally(j).size == 0 ==> tally(j) == Tally(0, 0.0, 0)
    {
      assert tally(j) == TallyOf(InBucket(outcomes, place, j));
    }
    EmptyDoNotMatter(tally, k);
  }

  lemma BucketGrows(outcomes: seq<Outcome>, o: Outcome, place: Placement, k: nat)
    ensures TallyOf(InBucket(outcomes + [o], place, k))
         == if place(o) == k then Plus(TallyOf(InBucket(outcomes, place, k)), One(o)) else TallyOf(InBucket(outcomes, place, k))
  {
    assert (outcomes + [o])[..|outcomes|] == outcomes;
    TallyGrows(InBucket(outcomes, place, k), o);
  }

  /** Adding to one of the tallies adds to the sum. */
  lemma {:induction false} OneMore(t: nat -> Tally, u: nat -> Tally, at: int, one: Tally, k: nat)
    requires forall j: nat :: u(j) == if j == at then Plus(t(j), one) else t(j)
    ensures SumOver(u, k) == if 0 <= at < k then Plus(SumOver(t, k), one) else SumOver(t, k)
  {
    if k > 0 {
      OneMore(t, u, at, one, k - 1);
      PlusSwaps(SumOver(t, k - 1), t(k - 1), one);
    }
  }

  lemma OneMoreOutcome(outcomes: seq<Outcome>, o: Outcome, place: Placement, k: nat)
    requires 0 <= place(o) < k
    ensures SumOver(BucketTally(outcomes + [o], place), k) == Plus(SumOver(BucketTally(outcomes, place), k), One(o))
  {
    var t, u := BucketTally(outcomes, place), BucketTally(outcomes + [o], place);
    forall j: nat
      ensures u(j) == if j == place(o) then Plus(t(j), One(o)) else t(j)
    {
      BucketGrows(outcomes, o, place, j);
    }
    OneMore(t, u, place(o), One(o), k);
  }

  lemma {:induction false} NothingToTally(place: Placement, k: nat)
    ensures SumOver(BucketTally([], place), k) == Tally(0, 0.0, 0)
  {
    if k > 0 {
      NothingToTally(place, k - 1);
    }
  }

  lemma {:induction false} SumOverAll(outcomes: seq<Outcome>, place: Placement, bins: nat)
    requires PlacedWithin(outcomes, place, bins)
    ensures SumOver(BucketTally(outcomes, place), bins) == TallyOf(outcomes)
  {
    if outcomes == [] {
      NothingToTally(place, bins);
    } else {
      var init, o := outcomes[..|outcomes| - 1], outcomes[|outcomes| - 1];
      assert outcomes == init + [o];
      SumOverAll(init, place, bins);
      OneMoreOutcome(init, o, place, bins);
    }
  }

  /** Bucket sizes, confidences and hits add up to those of all outcomes. */
  lemma BucketsPartition(outcomes: seq<Outcome>, place: Placement, bins: nat)
    requires PlacedWithin(outcomes, place, bins)
    ensures Total(BucketTallies(outcomes, place, bins)) == TallyOf(outcomes)
  {
    SumOverAll(outcomes, place, bins);
    EmptyBucketsDoNotMatter(outcomes, place, bins);
  }

  lemma {:induction false} SizesOfErrors(tallies: seq<Tally>)
    requires AllSized(tallies)
    ensures Sizes(Errors(tallies)) == Total(tallies).size
  {
    if tallies != [] {
      SizesOfErrors(tallies[..|tallies| - 1]);
      assert Errors(tallies)[..|tallies| - 1] == Errors(tallies[..|tallies| - 1]);
    }
  }

  /** The sizes of the reported buckets add up to the example count. */
  lemma BucketSizesAddUp(outcomes: seq<Outcome>, bins: nat)
    requires Confident(outcomes) && bins > 0
    ensures Sizes(Errors(BucketTallies(outcomes, EqualWidth(bins), bins))) == |outcomes|
  {
    EqualWidthPlaces(outcomes, bins);
    SizesOfErrors(BucketTallies(outcomes, EqualWidth(bins), bins));
    BucketsPartition(outcomes, EqualWidth(bins), bins);
  }

  // ----- The inequalities

  lemma SplitQuotient(a: real, b: real, n: real)
    requires n > 0.0
    ensures a / n - b / n == (a - b) / n
  {
  }

  lemma Undivide(x: real, n: real)
    requires n > 0.0
    ensures n * (x / n) == x && (-x) / n == -(x / n) && (x >= 0.0 <==> x / n >= 0.0)
  {
  }

  /** The distance between the sums of confidence and of hits. */
  function Gap(t: Tally): real { Abs(t.confidence - t.hits as real) }

  /** Weighing a bucket's error by its size gives back the distance between the two sums. */
  lemma WeighedError(t: Tally)
    requires t.size > 0
    ensures Times(t.size, ErrorOf(t)) == Gap(t)
  {
    var n, x := t.size as real, t.confidence - t.hits as real;
    SplitQuotient(t.confidence, t.hits as real, n);
    assert ErrorOf(t) == Abs(x / n);
    Undivide(x, n);
    Undivide(-x, n);
  }

  lemma DivideOrder(a: real, b: real, n: real)
    requires n > 0.0 && a <= b
    ensures a / n <= b / n
  {
    Undivide(b - a, n);
    SplitQuotient(b, a, n);
  }

  lemma AverageInRange(sum: real, n: nat)
    requires n > 0 && 0.0 <= sum <= n as real
    ensures 0.0 <= Average(sum, n) <= 1.0
  {
    DivideOrder(sum, n as real, n as real);
    DivideOrder(0.0, sum, n as real);
  }

  /** No tally has more confidence or hits than outcomes. */
  predicate InRange(t: Tally) { 0.0 <= t.confidence <= t.size as real && t.hits <= t.size }

  lemma {:induction false} TallyInRange(s: seq<Outcome>)
    requires Confident(s)
    ensures InRange(TallyOf(s))
  {
    if s != [] {
      TallyInRange(s[..|s| - 1]);
    }
  }

  lemma ErrorAtMostOne(t: Tally)
    requires InRange(t) && t.size > 0
    ensures 0.0 <= ErrorOf(t) <= 1.0
  {
    AverageInRange(t.confidence, t.size);
    AverageInRange(t.hits as real, t.size);
  }

  lemma {:induction false} InBucketConfident(outcomes: seq<Outcome>, place: Placement, k: nat)
    requires Confident(outcomes)
    ensures Confident(InBucket(outcomes, place, k))
  {
    if outcomes != [] {
      InBucketConfident(outcomes[..|outcomes| - 1], place, k);
    }
  }

  lemma {:induction false} NonEmptyInRange(tally: nat -> Tally, k: nat)
    requires forall j: nat :: InRange(tally(j))
    ensures forall i :: 0 <= i < |NonEmpty(tally, k)| ==> InRange(NonEmpty(tally, k)[i])
  {
    if k > 0 {
      NonEmptyInRange(tally, k - 1);
      assert InRange(tally(k - 1));
    }
  }

  lemma TalliesInRange(outcomes: seq<Outcome>, place: Placement, k: nat)
    requires Confident(outcomes)
    ensures forall i :: 0 <= i < |BucketTallies(outcomes, place, k)| ==> InRange(BucketTallies(outcomes, place, k)[i])
  {
    var tally := BucketTally(outcomes, place);
    forall j: nat
      ensures InRange(tally(j))
    {
      InBucketConfident(outcomes, place, j);
      TallyInRange(InBucket(outcomes, place, j));
      assert tally(j) == TallyOf(InBucket(outcomes, place, j));
    }
    NonEmptyInRange(tally, k);
  }

  /** The greatest error of tallies in range is in range. */
  lemma GreatestAtMostOne(tallies: seq<Tally>)
    requires AllSized(tallies) && forall i :: 0 <= i < |tallies| ==> InRange(tallies[i])
    ensures 0.0 <= Greatest(Errors(tallies)) <= 1.0
  {
    forall i | 0 <= i < |tallies|
      ensures 0.0 <= Errors(tallies)[i].error <= 1.0
    {
      ErrorAtMostOne(tallies[i]);
    }
  }

  /** Triangle inequality over the buckets. */
  lemma {:induction false} GapsAddUp(tallies: seq<Tally>)
    requires AllSized(tallies)
    ensures Gap(Total(tallies)) <= WeightedSum(Errors(tallies))
  {
    if tallies != [] {
      GapsAddUp(tallies[..|tallies| - 1]);
      assert Errors(tallies)[..|tallies| - 1] == Errors(tallies[..|tallies| - 1]);
      WeighedError(tallies[|tallies| - 1]);
    }
  }

  lemma ScaleOrder(n: nat, a: real, b: real)
    requires a <= b
    ensures Times(n, a) <= Times(n, b)
  {
    assert n as real * (b - a) >= 0.0;
  }

  lemma ScaleAdds(m: nat, n: nat, x: real)
    ensures Times(m + n, x) == Times(m, x) + Times(n, x)
  {
  }

  lemma {:induction false} WeightedAtMost(errors: seq<BucketError>, bound: real)
    requires forall i :: 0 <= i < |errors| ==> errors[i].error <= bound
    ensures WeightedSum(errors) <= Times(Sizes(errors), bound)
  {
    if errors != [] {
      var init, last := errors[..|errors| - 1], errors[|errors| - 1];
      WeightedAtMost(init, bound);
      ScaleOrder(last.size, last.error, bound);
      ScaleAdds(Sizes(init), last.size, bound);
    }
  }

  lemma FromWeighed(x: real, n: nat, sum: real)
    requires n > 0 && Times(n, x) <= sum
    ensures x <= Average(sum, n)
  {
    DivideOrder(n as real * x, sum, n as real);
    assert n as real * x / n as real == x;
  }

  lemma ToWeighed(sum: real, n: nat, x: real)
    requires n > 0 && sum <= Times(n, x)
    ensures Average(sum, n) <= x
  {
    DivideOrder(sum, n as real * x, n as real);
    assert n as real * x / n as real == x;
  }

  /** For any tallies whose total is `t`, the weighted error lies between the error of the total
      and the greatest error. */
  lemma WeightedIsBetween(tallies: seq<Tally>, t: Tally)
    requires AllSized(tallies) && Total(tallies) == t && t.size > 0
    ensures ErrorOf(t) <= Average(WeightedSum(Errors(tallies)), t.size) <= Greatest(Errors(tallies))
  {
    var sum := WeightedSum(Errors(tallies));
    GapsAddUp(tallies);
    WeighedError(t);
    FromWeighed(ErrorOf(t), t.size, sum);
    SizesOfErrors(tallies);
    WeightedAtMost(Errors(tallies), Greatest(Errors(tallies)));
    ToWeighed(sum, t.size, Greatest(Errors(tallies)));
  }

  /** Mean confidence of the outcomes. */
  function MeanConfidence(outcomes: seq<Outcome>): real
    requires outcomes != []
  {
    Average(TallyOf(outcomes).confidence, |outcomes|)
  }

  /** `|mean confidence - accuracy| <= ECE <= MCE <= 1`. */
  predicate WellOrdered(outcomes: seq<Outcome>, m: Metrics)
    requires outcomes != []
  {
    Abs(MeanConfidence(outcomes) - m.accuracy) <= m.ece <= m.mce <= 1.0
  }

  lemma DistanceIsError(outcomes: seq<Outcome>, m: Metrics)
    requires outcomes != [] && m.accuracy == Average(TallyOf(outcomes).hits as real, |outcomes|)
    requires ErrorOf(TallyOf(outcomes)) <= m.ece <= m.mce <= 1.0
    ensures WellOrdered(outcomes, m)
  {
    assert ErrorOf(TallyOf(outcomes)) == Abs(MeanConfidence(outcomes) - m.accuracy);
  }

  /** The expected calibration error lies between the distance of mean confidence from accuracy
      and the maximum calibration error, which is at most one, however outcomes are placed. */
  lemma EceIsBetween(outcomes: seq<Outcome>, place: Placement, bins: nat)
    requires Confident(outcomes) && outcomes != [] && PlacedWithin(outcomes, place, bins)
    ensures WellOrdered(outcomes, MetricsOf(outcomes, place, bins))
  {
    BucketsPartition(outcomes, place, bins);
    WeightedIsBetween(BucketTallies(outcomes, place, bins), TallyOf(outcomes));
    TalliesInRange(outcomes, place, bins);
    GreatestAtMostOne(BucketTallies(outcomes, place, bins));
    DistanceIsError(outcomes, MetricsOf(outcomes, place, bins));
  }

  // ----- Risk against coverage

  lemma {:induction false} TallyConcat(a: seq<Outcome>, b: seq<Outcome>)
    ensures TallyOf(a + b) == Plus(TallyOf(a), TallyOf(b))
  {
    if b == [] {
      assert a + b == a;
    } else {
      var init, o := b[..|b| - 1], b[|b| - 1];
      assert b == init + [o] && a + b == (a + init) + [o];
      TallyConcat(a, init);
      TallyGrows(a + init, o);
      TallyGrows(init, o);
      PlusSwaps(TallyOf(a), TallyOf(init), One(o));
    }
  }

  lemma FirstTally(s: seq<Outcome>)
    requires s != []
    ensures TallyOf(s) == Plus(One(s[0]), TallyOf(s[1..]))
  {
    assert [s[0]] + s[1..] == s && [] + [s[0]] == [s[0]];
    TallyGrows([], s[0]);
    TallyConcat([s[0]], s[1..]);
  }

  lemma {:induction false} InsertTally(o: Outcome, s: seq<Outcome>)
    ensures TallyOf(Insert(o, s, MoreConfident)) == Plus(One(o), TallyOf(s))
  {
    var r := Insert(o, s, MoreConfident);
    FirstTally(r);
    if s == [] || !MoreConfident(s[0], o) {
      assert r[1..] == s;
    } else {
      InsertTally(o, s[1..]);
      FirstTally(s);
      assert r[1..] == Insert(o, s[1..], MoreConfident);
    }
  }

  lemma {:induction false} SortTally(s: seq<Outcome>)
    ensures TallyOf(ByConfidence(s)) == TallyOf(s)
  {
    if s != [] {
      SortTally(s[1..]);
      InsertTally(s[0], ByConfidence(s[1..]));
      FirstTally(s);
    }
  }

  /** Ranking keeps the outcomes and puts the more confident ones first. */
  lemma RankedByConfidence(outcomes: seq<Outcome>)
    ensures var ranked := ByConfidence(outcomes);
            && multiset(ranked) == multiset(outcomes) && |ranked| == |outcomes|
            && forall j, k :: 0 <= j < k < |ranked| ==> ranked[j].confidence >= ranked[k].confidence
  {
    SortKeeps(outcomes, MoreConfident);
    SortSorts(outcomes, MoreConfident);
    var ranked := ByConfidence(outcomes);
    forall j, k | 0 <= j < k < |ranked|
      ensures ranked[j].confidence >= ranked[k].confidence
    {
      assert !MoreConfident(ranked[k], ranked[j]);
    }
  }

  /** The last point accepts everything, with the overall error rate as its risk. */
  lemma LastPointAcceptsAll(outcomes: seq<Outcome>, place: Placement, bins: nat)
    requires outcomes != []
    ensures var m := MetricsOf(outcomes, place, bins);
            m.riskCoverage != [] && LastPoint(m) == RiskCoveragePoint(1.0, 1.0 - m.accuracy, |outcomes|)
  {
    AcceptedCountsSorted(|outcomes|);
    SortKeeps(outcomes, MoreConfident);
    WholePoint(outcomes);
  }

  lemma AverageOfAll(n: nat)
    requires n > 0
    ensures Average(n as real, n) == 1.0
  {
  }

  lemma WholePoint(outcomes: seq<Outcome>)
    requires outcomes != [] && |ByConfidence(outcomes)| == |outcomes|
    ensures Point(ByConfidence(outcomes), |outcomes|)
         == RiskCoveragePoint(1.0, 1.0 - Average(TallyOf(outcomes).hits as real, |outcomes|), |outcomes|)
  {
    SortTally(outcomes);
    var ranked := ByConfidence(outcomes);
    assert ranked[..|ranked|] == ranked;
    AverageOfAll(|outcomes|);
  }

  /** The last point of the curve. */
  function LastPoint(m: Metrics): RiskCoveragePoint
    requires m.riskCoverage != []
  {
    m.riskCoverage[|m.riskCoverage| - 1]
  }

  // ----- Bounds of the proper scores

  function Sum(p: seq<real>, k: nat): real
    requires k <= |p|
  {
    if k == 0 then 0.0 else Sum(p, k - 1) + p[k - 1]
  }

  /** What a softmax yields: entries between zero and one that add up to one. */
  predicate Distribution(e: Example) { Bounded(e) && Sum(e.probabilities, |e.probabilities|) == 1.0 }

  lemma SquareOfFraction(x: real)
    requires 0.0 <= x <= 1.0
    ensures 0.0 <= Square(x) <= x
  {
    ProductNonnegative(x, x);
    ProductNonnegative(x, 1.0 - x);
    assert x * (1.0 - x) == x - x * x;
  }

  lemma SquareOfOpposite(x: real, y: real)
    requires x + y == 0.0
    ensures Square(x) == Square(y)
  {
    assert x == -y;
  }

  lemma TermBound(x: real, t: real)
    requires 0.0 <= x <= 1.0 && (t == 0.0 || t == 1.0)
    ensures 0.0 <= Square(x - t) <= if t == 1.0 then 1.0 - x else x
  {
    if t == 1.0 {
      SquareOfOpposite(x - t, 1.0 - x);
      SquareOfFraction(1.0 - x);
    } else {
      SquareOfFraction(x - t);
    }
  }

  lemma {:induction false} SquaredErrorsBound(p: seq<real>, labelIndex: nat, k: nat)
    requires k <= |p| && labelIndex < |p| && forall i :: 0 <= i < |p| ==> 0.0 <= p[i] <= 1.0
    ensures 0.0 <= SquaredErrors(p, labelIndex, k)
                <= Sum(p, k) + if labelIndex < k then 1.0 - 2.0 * p[labelIndex] else 0.0
  {
    if k > 0 {
      SquaredErrorsBound(p, labelIndex, k - 1);
      TermBound(p[k - 1], Target(labelIndex, k - 1));
    }
  }

  /** The squared error of an example is at most twice the probability it denies its label. */
  lemma SquaredErrorOfExample(e: Example)
    requires Usable(e) && Distribution(e)
    ensures 0.0 <= SquaredErrors(e.probabilities, e.labelIndex, |e.probabilities|) <= 2.0 * (1.0 - e.probabilities[e.labelIndex])
  {
    SquaredErrorsBound(e.probabilities, e.labelIndex, |e.probabilities|);
  }

  /** What the model needs of a logarithm. */
  ghost predicate LogLike(log: real -> real) {
    log(1.0) == 0.0 && forall x, y :: 0.0 < x <= y ==> log(x) <= log(y)
  }

  lemma {:induction false} ScoresBound(log: real -> real, examples: seq<Example>)
    requires LogLike(log) && AllUsable(examples) && forall i :: 0 <= i < |examples| ==> Distribution(examples[i])
    ensures 0.0 <= ScoresOf(log, examples).brier <= 2.0 * |examples| as real
    ensures 0.0 <= ScoresOf(log, examples).nll <= Times(|examples|, -log(FLOOR))
  {
    if examples == [] {
      assert Times(0, -log(FLOOR)) == 0.0;
    } else {
      var init, e := examples[..|examples| - 1], examples[|examples| - 1];
      ScoresBound(log, init);
      SquaredErrorOfExample(e);
      ScaleAdds(|init|, 1, -log(FLOOR));
      TimesOne(-log(FLOOR));
    }
  }

  lemma TimesOne(x: real)
    ensures Times(1, x) == x
  {
  }

  lemma TimesTwo(n: nat)
    ensures Times(n, 2.0) == 2.0 * n as real
  {
  }

  lemma AverageNonnegative(sum: real, n: nat)
    requires n > 0 && sum >= 0.0
    ensures Average(sum, n) >= 0.0
  {
    DivideOrder(0.0, sum, n as real);
  }

  /** The mean Brier score lies between zero and two, and the mean negative log-likelihood between
      zero and that of the floor, on every list of usable examples with distributions. */
  lemma ScoresAreBounded(log: real -> real, examples: seq<Example>, bins: int)
    requires LogLike(log) && forall i :: 0 <= i < |examples| ==> Distribution(examples[i])
    requires examples != [] && bins > 0 && AllUsable(examples)
    ensures var r := Spec(log, examples, bins);
            r.Measured? && 0.0 <= r.brier <= 2.0 && 0.0 <= r.nll <= -log(FLOOR)
  {
    var scores, n := ScoresOf(log, examples), |examples|;
    NoFailure(examples, bins);
    ScoresBound(log, examples);
    AverageNonnegative(scores.brier, n);
    AverageNonnegative(scores.nll, n);
    TimesTwo(n);
    ToWeighed(scores.brier, n, 2.0);
    ToWeighed(scores.nll, n, -log(FLOOR));
  }

  /** The inequalities, and the last point that accepts everything. */
  predicate SoundMetrics(outcomes: seq<Outcome>, m: Metrics)
    requires outcomes != []
  {
    WellOrdered(outcomes, m) && m.riskCoverage != [] && LastPoint(m) == RiskCoveragePoint(1.0, 1.0 - m.accuracy, |outcomes|)
  }

  lemma MetricsOfSound(outcomes: seq<Outcome>, bins: nat)
    requires Confident(outcomes) && outcomes != [] && bins > 0
    ensures SoundMetrics(outcomes, MetricsOf(outcomes, EqualWidth(bins), bins))
  {
    EqualWidthPlaces(outcomes, bins);
    EceIsBetween(outcomes, EqualWidth(bins), bins);
    LastPointAcceptsAll(outcomes, EqualWidth(bins), bins);
  }

  lemma MetricsReported(log: real -> real, examples: seq<Example>, bins: int)
    ensures Spec(log, examples, bins).Measured? <==> examples != [] && bins > 0 && AllUsable(examples)
    ensures Spec(log, examples, bins).Measured? ==> Spec(log, examples, bins).metrics == MetricsOf(Outcomes(examples), EqualWidth(bins), bins)
  {
    NoFailure(examples, bins);
  }

  /** Metrics exist exactly for a nonempty list of usable examples and at least one bucket, and
      then every inequality holds. */
  lemma MetricsAreSound(log: real -> real, examples: seq<Example>, bins: int)
    requires AllBounded(examples)
    ensures Spec(log, examples, bins).Measured? <==> examples != [] && bins > 0 && AllUsable(examples)
    ensures Spec(log, examples, bins).Measured? ==> SoundMetrics(Outcomes(examples), Spec(log, examples, bins).metrics)
  {
    MetricsReported(log, examples, bins);
    if examples != [] && bins > 0 && AllUsable(examples) {
      OutcomesConfident(examples);
      MetricsOfSound(Outcomes(examples), bins);
    }
  }

  // ----- Buckets of equal width

  lemma FloorBounds(x: real)
    ensures x.Floor as real <= x < x.Floor as real + 1.0
  {
  }

  /** An outcome in bucket `k` has a confidence between `k / bins` and `(k + 1) / bins`, the upper end
      included in the last bucket only. */
  lemma BucketsHaveEqualWidth(confidence: real, bins: int, scaled: real)
    requires 0.0 <= confidence <= 1.0 && bins > 0 && scaled == confidence * bins as real
    ensures var k := BucketOf(confidence, bins);
            && 0 <= k < bins && k as real <= scaled && scaled <= k as real + 1.0
            && (scaled == k as real + 1.0 ==> k == bins - 1 && confidence == 1.0)
  {
    BucketInRange(confidence, bins);
    FloorBounds(scaled);
    ScaledAtMost(confidence, bins as real, scaled);
  }

  lemma ProductPositive(a: real, b: real)
    requires a > 0.0 && b > 0.0
    ensures a * b > 0.0
  {
  }

  lemma ScaledAtMost(confidence: real, width: real, scaled: real)
    requires 0.0 <= confidence <= 1.0 && width > 0.0 && scaled == confidence * width
    ensures scaled <= width && (scaled == width ==> confidence == 1.0)
  {
    ProductNonnegative(1.0 - confidence, width);
    assert (1.0 - confidence) * width == width - scaled;
    if confidence < 1.0 {
      ProductPositive(1.0 - confidence, width);
    }
  }

  lemma {:induction false} InBucketMembers(outcomes: seq<Outcome>, place: Placement, k: nat)
    ensures forall o :: o in InBucket(outcomes, place, k) <==> o in outcomes && place(o) == k
  {
    if outcomes != [] {
      InBucketMembers(outcomes[..|outcomes| - 1], place, k);
      assert outcomes == outcomes[..|outcomes| - 1] + [outcomes[|outcomes| - 1]];
    }
  }

  lemma DivideBack(a: nat, n: nat)
    requires n > 0
    ensures Average(a as real, n) * n as real == a as real
  {
  }

  /** A point of the curve in whole numbers: its coverage counts the accepted, its risk the wrong ones
      among them. */
  lemma PointCounts(ranked: seq<Outcome>, accepted: nat)
    requires 0 < accepted <= |ranked|
    ensures var point := Point(ranked, accepted);
            && point.accepted == accepted && point.coverage * |ranked| as real == accepted as real
            && (1.0 - point.selectiveRisk) * accepted as real == TallyOf(ranked[..accepted]).hits as real
  {
    DivideBack(accepted, |ranked|);
    DivideBack(TallyOf(ranked[..accepted]).hits, accepted);
  }

  // ----- What is counted

  /** The confidence is the greatest probability, and an outcome is correct exactly when its label is
      the first index that reaches it. */
  lemma OutcomeMeans(e: Example)
    requires Usable(e)
    ensures OutcomeOf(e).confidence in e.probabilities && forall i :: 0 <= i < |e.probabilities| ==> e.probabilities[i] <= OutcomeOf(e).confidence
    ensures OutcomeOf(e).correct <==>
              && (forall i :: 0 <= i < |e.probabilities| ==> e.probabilities[i] <= e.probabilities[e.labelIndex])
              && (forall i :: 0 <= i < e.labelIndex ==> e.probabilities[i] < e.probabilities[e.labelIndex])
  {
    var p, k := e.probabilities, ArgMax(e.probabilities);
    if forall i :: 0 <= i < |p| ==> p[i] <= p[e.labelIndex] {
      assert p[k] <= p[e.labelIndex];
    }
  }

  /** The positions of the correct outcomes. */
  function CorrectAt(s: seq<Outcome>): set<nat> { set i: nat | i < |s| && s[i].correct }

  /** Hits are the correct outcomes. */
  lemma {:induction false} HitsCount(s: seq<Outcome>)
    ensures TallyOf(s).hits == |CorrectAt(s)|
  {
    if s == [] {
      assert CorrectAt(s) == {};
    } else {
      var init, n := s[..|s| - 1], |s| - 1;
      HitsCount(init);
      assert CorrectAt(s) == CorrectAt(init) + if s[n].correct then {n} else {};
    }
  }

  lemma UndivideSum(sum: real, n: nat)
    requires n > 0
    ensures Times(n, Average(sum, n)) == sum
  {
    Undivide(sum, n as real);
  }

  /** The accuracy of the report is the share of examples whose label is the first greatest probability. */
  lemma AccuracyCounts(outcomes: seq<Outcome>, place: Placement, bins: nat)
    requires outcomes != []
    ensures Times(|outcomes|, MetricsOf(outcomes, place, bins).accuracy) == |CorrectAt(outcomes)| as real
  {
    HitsCount(outcomes);
    UndivideSum(TallyOf(outcomes).hits as real, |outcomes|);
  }

  /** The sum over all buckets of the distance between confidence and hits. */
  function SumGaps(tally: nat -> Tally, k: nat): real {
    if k == 0 then 0.0 else SumGaps(tally, k - 1) + Gap(tally(k - 1))
  }

  lemma WeightedGrows(tallies: seq<Tally>, t: Tally)
    requires AllSized(tallies) && AllSized(Keep(tallies, t)) && (t.size == 0 ==> t == Tally(0, 0.0, 0))
    ensures WeightedSum(Errors(Keep(tallies, t))) == WeightedSum(Errors(tallies)) + Gap(t)
  {
    if t.size > 0 {
      WeighedError(t);
      var errors := Errors(tallies + [t]);
      assert (tallies + [t])[..|tallies|] == tallies && errors[..|tallies|] == Errors(tallies);
    }
  }

  lemma {:induction false} WeightedIsGaps(tally: nat -> Tally, k: nat)
    requires forall j: nat :: tally(j).size == 0 ==> tally(j) == Tally(0, 0.0, 0)
    ensures WeightedSum(Errors(NonEmpty(tally, k))) == SumGaps(tally, k)
  {
    if k > 0 {
      WeightedIsGaps(tally, k - 1);
      var kept, t := NonEmpty(tally, k - 1), tally(k - 1);
      assert NonEmpty(tally, k) == Keep(kept, t);
      WeightedGrows(kept, t);
    }
  }

  /** The expected calibration error, times the example count, is the sum over all buckets of the
      distance between summed confidence and hits. */
  lemma EceSumsGaps(outcomes: seq<Outcome>, place: Placement, bins: nat)
    requires outcomes != []
    ensures Times(|outcomes|, MetricsOf(outcomes, place, bins).ece) == SumGaps(BucketTally(outcomes, place), bins)
  {
    var tally := BucketTally(outcomes, place);
    forall j: nat
      ensures tally(j).size == 0 ==> tally(j) == Tally(0, 0.0, 0)
    {
      assert tally(j) == TallyOf(InBucket(outcomes, place, j));
    }
    WeightedIsGaps(tally, bins);
    UndivideSum(WeightedSum(Errors(BucketTallies(outcomes, place, bins))), |outcomes|);
  }

  lemma {:induction false} NonEmptyHas(tally: nat -> Tally, k: nat, j: nat)
    requires j < k && tally(j).size > 0
    ensures tally(j) in NonEmpty(tally, k)
  {
    assert NonEmpty(tally, k) == Keep(NonEmpty(tally, k - 1), tally(k - 1));
    if j < k - 1 {
      NonEmptyHas(tally, k - 1, j);
    }
  }

  lemma {:induction false} NonEmptyFrom(tally: nat -> Tally, k: nat, t: Tally) returns (j: nat)
    requires t in NonEmpty(tally, k)
    ensures j < k && tally(j) == t
  {
    if tally(k - 1) == t {
      j := k - 1;
    } else {
      j := NonEmptyFrom(tally, k - 1, t);
    }
  }

  /** A tally that reaches the greatest error. */
  lemma ReachesGreatest(tallies: seq<Tally>, m: real) returns (i: nat)
    requires tallies != [] && AllSized(tallies) && m == Greatest(Errors(tallies))
    ensures i < |tallies| && Gap(tallies[i]) == Times(tallies[i].size, m)
  {
    i :| i < |tallies| && m == Errors(tallies)[i].error;
    WeighedError(tallies[i]);
  }

  lemma WorstBucket(outcomes: seq<Outcome>, place: Placement, bins: nat, m: real) returns (worst: nat)
    requires BucketTallies(outcomes, place, bins) != [] && m == Greatest(Errors(BucketTallies(outcomes, place, bins)))
    ensures worst < bins && BucketTally(outcomes, place)(worst).size > 0
    ensures Gap(BucketTally(outcomes, place)(worst)) == Times(BucketTally(outcomes, place)(worst).size, m)
  {
    var tallies := BucketTallies(outcomes, place, bins);
    var i := ReachesGreatest(tallies, m);
    worst := NonEmptyFrom(BucketTally(outcomes, place), bins, tallies[i]);
  }

  lemma SomeBucket(outcomes: seq<Outcome>, place: Placement, bins: nat)
    requires outcomes != [] && PlacedWithin(outcomes, place, bins)
    ensures BucketTallies(outcomes, place, bins) != []
  {
    var k: nat := place(outcomes[0]);
    InBucketMembers(outcomes, place, k);
    assert outcomes[0] in InBucket(outcomes, place, k);
    NonEmptyHas(BucketTally(outcomes, place), bins, k);
  }

  /** The maximum calibration error bounds the distance in every bucket relative to its size, and is
      reached in one. */
  lemma MceIsReached(outcomes: seq<Outcome>, place: Placement, bins: nat) returns (worst: nat)
    requires outcomes != [] && PlacedWithin(outcomes, place, bins)
    ensures var m, tally := MetricsOf(outcomes, place, bins).mce, BucketTally(outcomes, place);
            && worst < bins && tally(worst).size > 0 && Gap(tally(worst)) == Times(tally(worst).size, m)
            && forall j: nat :: j < bins ==> Gap(tally(j)) <= Times(tally(j).size, m)
  {
    var m := Greatest(Errors(BucketTallies(outcomes, place, bins)));
    SomeBucket(outcomes, place, bins);
    worst := WorstBucket(outcomes, place, bins, m);
    forall j: nat | j < bins
      ensures Gap(BucketTally(outcomes, place)(j)) <= Times(BucketTally(outcomes, place)(j).size, m)
    {
      GapWithin(outcomes, place, bins, j, m);
    }
  }

  lemma GapWithin(outcomes: seq<Outcome>, place: Placement, bins: nat, j: nat, m: real)
    requires j < bins && m == Greatest(Errors(BucketTallies(outcomes, place, bins)))
    ensures Gap(BucketTally(outcomes, place)(j)) <= Times(BucketTally(outcomes, place)(j).size, m)
  {
    var tally, tallies := BucketTally(outcomes, place), BucketTallies(outcomes, place, bins);
    var t := tally(j);
    assert t == TallyOf(InBucket(outcomes, place, j));
    if t.size > 0 {
      NonEmptyHas(tally, bins, j);
      var i :| 0 <= i < |tallies| && tallies[i] == t;
      assert Errors(tallies)[i].error <= m;
      WeighedError(t);
      ScaleOrder(t.size, ErrorOf(t), m);
    } else {
      assert InBucket(outcomes, place, j) == [];
      TimesNothing(m);
    }
  }

  lemma TimesNothing(x: real)
    ensures Times(0, x) == 0.0
  {
  }
}
