/** The adaptive cost estimator (c3r/cost_twin.py), over reals. */
module CostTwin {
  import opened Schema

  datatype CostForecast = CostForecast(expected: real, p95: real, stale: bool)

  function Max(a: real, b: real): real { if a >= b then a else b }

  function Abs(a: real): real { if a >= 0.0 then a else -a }

  const EPSILON: real := 0.000000001

  datatype Twin = Twin(residuals: map<string, real>, stale: set<string>)

  datatype Config = Config(priors: map<string, CostForecast>, alpha: real, threshold: real)

  function Residual(t: Twin, id: string): real { if id in t.residuals then t.residuals[id] else 0.0 }

  /** `forecast` for an action that has a prior. */
  function Forecast(cfg: Config, t: Twin, id: string): CostForecast
    requires id in cfg.priors
  {
    var prior, residual := cfg.priors[id], Residual(t, id);
    CostForecast(Max(0.0, prior.expected + residual), Max(0.0, prior.p95 + Abs(residual)), id in t.stale || prior.stale)
  }

  /** The move of a value towards an error by the smoothing factor. */
  function Smoothed(alpha: real, value: real, error: real): real { value + alpha * error }

  /** Whether the relative error of an observation exceeds the staleness threshold. */
  predicate Misses(error: real, expected: real, threshold: real) {
    Abs(error) / Max(expected, EPSILON) > threshold
  }

  /** `observe` for an action that has a prior. */
  function Observed(cfg: Config, t: Twin, id: string, cost: real): Twin
    requires id in cfg.priors
  {
    var expected := Forecast(cfg, t, id).expected;
    var error := cost - expected;
    Twin(t.residuals[id := Smoothed(cfg.alpha, Residual(t, id), error)],
         if Misses(error, expected, cfg.threshold) then t.stale + {id} else t.stale)
  }

  class AdaptiveCostTwin {
    const cfg: Config
    var residuals: map<string, real>
    var stale: set<string>

    function State(): Twin
      reads this
    {
      Twin(residuals, stale)
    }

    constructor (cfg: Config)
      ensures this.cfg == cfg && State() == Twin(map[], {})
    {
      this.cfg := cfg;
      residuals, stale := map[], {};
    }

    /** `observe`; false is the KeyError of an action without a prior. */
    method Observe(id: string, cost: real) returns (known: bool)
      modifies this
      ensures known <==> id in cfg.priors
      ensures State() == if known then Observed(cfg, old(State()), id, cost) else old(State())
    {
      if id !in cfg.priors {
        return false;
      }
      var forecast := Forecast(cfg, State(), id);
      var error := cost - forecast.expected;
      var previous := if id in residuals then residuals[id] else 0.0;
      residuals := residuals[id := Smoothed(cfg.alpha, previous, error)];
      if Misses(error, forecast.expected, cfg.threshold) {
        stale := stale + {id};
      }
      return true;
    }
  }

  // ----- Runs of observations

  datatype Observation = Observation(id: string, cost: real)

  function Run(cfg: Config, observations: seq<Observation>): Twin {
    if observations == [] then Twin(map[], {})
    else
      var before, o := Run(cfg, observations[..|observations| - 1]), observations[|observations| - 1];
      if o.id in cfg.priors then Observed(cfg, before, o.id, o.cost) else before
  }

  /** The costs observed for one action. */
  function Own(observations: seq<Observation>, id: string): seq<real> {
    if observations == [] then []
    else
      var earlier, o := Own(observations[..|observations| - 1], id), observations[|observations| - 1];
      if o.id == id then earlier + [o.cost] else earlier
  }

  /** Prior plus residual, before the clamp at zero, after observing `costs`. */
  function Level(alpha: real, prior: real, costs: seq<real>): real {
    if costs == [] then prior
    else
      var before := Level(alpha, prior, costs[..|costs| - 1]);
      Smoothed(alpha, before, costs[|costs| - 1] - Max(0.0, before))
  }

  /** The forecast of an action depends on its own observations only. */
  lemma {:induction false} ForecastIsItsOwn(cfg: Config, observations: seq<Observation>, id: string)
    requires id in cfg.priors
    ensures cfg.priors[id].expected + Residual(Run(cfg, observations), id)
         == Level(cfg.alpha, cfg.priors[id].expected, Own(observations, id))
  {
    if observations != [] {
      var init, o := observations[..|observations| - 1], observations[|observations| - 1];
      ForecastIsItsOwn(cfg, init, id);
      var own := Own(init, id);
      assert (own + [o.cost])[..|own|] == own;
    }
  }

  lemma ProductNonnegative(a: real, b: real)
    requires a >= 0.0 && b >= 0.0
    ensures a * b >= 0.0
  {
  }

  lemma Complement(alpha: real, d: real)
    ensures (1.0 - alpha) * d == d - alpha * d
  {
  }

  /** A fraction of a nonnegative number lies between zero and the number. */
  lemma FractionOf(alpha: real, d: real)
    requires 0.0 <= alpha <= 1.0 && d >= 0.0
    ensures 0.0 <= alpha * d <= d
  {
    ProductNonnegative(alpha, d);
    ProductNonnegative(1.0 - alpha, d);
    Complement(alpha, d);
  }

  lemma SmoothedUp(alpha: real, x: real, d: real)
    requires 0.0 <= alpha <= 1.0 && d >= 0.0
    ensures x <= Smoothed(alpha, x, d) <= x + d
  {
    FractionOf(alpha, d);
  }

  lemma Opposite(alpha: real, d: real, e: real)
    requires d + e == 0.0
    ensures alpha * d + alpha * e == 0.0
  {
    assert alpha * d + alpha * e == alpha * (d + e);
  }

  lemma SmoothedDown(alpha: real, x: real, d: real, e: real)
    requires 0.0 <= alpha <= 1.0 && d >= 0.0 && d + e == 0.0
    ensures x - d <= Smoothed(alpha, x, e) <= x
  {
    FractionOf(alpha, d);
    Opposite(alpha, d, e);
  }

  lemma MixStaysBetween(alpha: real, lo: real, hi: real, x: real, c: real, error: real)
    requires 0.0 <= alpha <= 1.0 && lo <= x <= hi && lo <= c <= hi && error == c - x
    ensures lo <= Smoothed(alpha, x, error) <= hi
  {
    if error >= 0.0 {
      SmoothedUp(alpha, x, error);
    } else {
      SmoothedDown(alpha, x, -error, error);
    }
  }

  /** With a smoothing factor of at most one the forecast stays within any bounds that hold for the
      prior and every observed cost; so for nonnegative costs the clamp at zero never acts. */
  lemma {:induction false} LevelStaysInHull(alpha: real, prior: real, costs: seq<real>, lo: real, hi: real)
    requires 0.0 <= alpha <= 1.0 && 0.0 <= lo <= prior <= hi
    requires forall i :: 0 <= i < |costs| ==> lo <= costs[i] <= hi
    ensures lo <= Level(alpha, prior, costs) <= hi
  {
    if costs != [] {
      LevelStaysInHull(alpha, prior, costs[..|costs| - 1], lo, hi);
      var before, c := Level(alpha, prior, costs[..|costs| - 1]), costs[|costs| - 1];
      MixStaysBetween(alpha, lo, hi, before, c, c - before);
    }
  }

  lemma OneObservation(alpha: real, prior: real, c: real)
    requires prior >= 0.0
    ensures Level(alpha, prior, [c]) == Smoothed(alpha, prior, c - prior)
  {
    assert [c][..0] == [];
  }

  predicate AllNonnegative(costs: seq<real>) {
    forall i :: 0 <= i < |costs| ==> costs[i] >= 0.0
  }

  /** Some upper bound of the prior and the costs. */
  lemma {:induction false} UpperBound(prior: real, costs: seq<real>) returns (hi: real)
    ensures prior <= hi && forall i :: 0 <= i < |costs| ==> costs[i] <= hi
  {
    hi := prior;
    if costs != [] {
      hi := UpperBound(prior, costs[1..]);
      hi := Max(hi, costs[0]);
      assert forall i :: 1 <= i < |costs| ==> costs[i] == costs[1..][i - 1];
    }
  }

  /** The clamp at zero never acts, on any nonnegative prior and costs, exactly when the smoothing
      factor lies between zero and one: above one a single free run takes a positive prior below
      zero, and a negative factor moves a zero prior away from the observed cost. */
  lemma ClampNeverActs(alpha: real)
    ensures (forall prior: real, costs: seq<real> :: prior >= 0.0 && AllNonnegative(costs) ==> Level(alpha, prior, costs) >= 0.0)
       <==> 0.0 <= alpha <= 1.0
  {
    if 0.0 <= alpha <= 1.0 {
      forall prior: real, costs: seq<real> | prior >= 0.0 && AllNonnegative(costs)
        ensures Level(alpha, prior, costs) >= 0.0
      {
        var hi := UpperBound(prior, costs);
        LevelStaysInHull(alpha, prior, costs, 0.0, hi);
      }
    } else if alpha > 1.0 {
      OneObservation(alpha, 1.0, 0.0);
      assert AllNonnegative([0.0]) && Level(alpha, 1.0, [0.0]) < 0.0;
    } else {
      OneObservation(alpha, 0.0, 1.0);
      assert AllNonnegative([1.0]) && Level(alpha, 0.0, [1.0]) < 0.0;
    }
  }

  function Power(x: real, n: nat): real { if n == 0 then 1.0 else x * Power(x, n - 1) }

  function Repeated(c: real, n: nat): seq<real> { if n == 0 then [] else Repeated(c, n - 1) + [c] }

  function Shrunk(alpha: real, gap: real): real { (1.0 - alpha) * gap }

  function Iterate(f: real -> real, x: real, n: nat): real {
    if n == 0 then x else f(Iterate(f, x, n - 1))
  }

  function Shrinking(alpha: real): real -> real { (gap: real) => Shrunk(alpha, gap) }

  lemma {:induction false} ShrinkingIsPower(alpha: real, gap: real, n: nat)
    ensures Iterate(Shrinking(alpha), gap, n) == Power(1.0 - alpha, n) * gap
  {
    if n > 0 {
      ShrinkingIsPower(alpha, gap, n - 1);
      Reassociate(1.0 - alpha, Power(1.0 - alpha, n - 1), gap);
    }
  }

  /** A sequence of gaps each obtained from the one before. */
  lemma {:induction false} GapsIterate(gaps: nat -> real, f: real -> real, n: nat)
    requires forall k: nat :: gaps(k + 1) == f(gaps(k))
    ensures gaps(n) == Iterate(f, gaps(0), n)
  {
    if n > 0 {
      GapsIterate(gaps, f, n - 1);
      assert gaps(n - 1 + 1) == f(gaps(n - 1));
    }
  }

  lemma Reassociate(a: real, p: real, g: real)
    ensures a * (p * g) == (a * p) * g
  {
  }

  lemma GapShrinks(alpha: real, x: real, c: real)
    ensures Smoothed(alpha, x, c - x) - c == Shrunk(alpha, x - c)
  {
  }

  lemma {:induction false} RepeatedMembers(c: real, n: nat)
    ensures forall i :: 0 <= i < |Repeated(c, n)| ==> Repeated(c, n)[i] == c
  {
    if n > 0 {
      RepeatedMembers(c, n - 1);
    }
  }

  lemma LevelStep(alpha: real, prior: real, costs: seq<real>, c: real)
    requires Level(alpha, prior, costs) >= 0.0
    ensures Level(alpha, prior, costs + [c]) - c == Shrunk(alpha, Level(alpha, prior, costs) - c)
  {
    assert (costs + [c])[..|costs|] == costs;
    GapShrinks(alpha, Level(alpha, prior, costs), c);
  }

  lemma RepeatedLevel(alpha: real, prior: real, c: real, n: nat)
    requires 0.0 <= alpha <= 1.0 && prior >= 0.0 && c >= 0.0
    ensures Level(alpha, prior, Repeated(c, n)) >= 0.0
  {
    RepeatedMembers(c, n);
    LevelStaysInHull(alpha, prior, Repeated(c, n), 0.0, Max(prior, c));
  }

  lemma GapStep(alpha: real, prior: real, costs: seq<real>, c: real, gap: real)
    requires Level(alpha, prior, costs) >= 0.0 && Level(alpha, prior, costs) - c == gap
    ensures Level(alpha, prior, costs + [c]) - c == Shrunk(alpha, gap)
  {
    LevelStep(alpha, prior, costs, c);
  }

  /** The gap between the level and the cost after `k` observations of a constant cost. */
  function Gaps(alpha: real, prior: real, c: real): nat -> real {
    (k: nat) => Level(alpha, prior, Repeated(c, k)) - c
  }

  lemma GapsShrink(alpha: real, prior: real, c: real, k: nat)
    requires 0.0 <= alpha <= 1.0 && prior >= 0.0 && c >= 0.0
    ensures Gaps(alpha, prior, c)(k + 1) == Shrinking(alpha)(Gaps(alpha, prior, c)(k))
  {
    RepeatedLevel(alpha, prior, c, k);
    GapStep(alpha, prior, Repeated(c, k), c, Level(alpha, prior, Repeated(c, k)) - c);
  }

  lemma FirstGap(alpha: real, prior: real, c: real)
    ensures Gaps(alpha, prior, c)(0) == prior - c
  {
  }

  lemma GapsDecay(alpha: real, prior: real, c: real, n: nat)
    requires 0.0 <= alpha <= 1.0 && prior >= 0.0 && c >= 0.0
    ensures Gaps(alpha, prior, c)(n) == Iterate(Shrinking(alpha), Gaps(alpha, prior, c)(0), n)
  {
    var gaps := Gaps(alpha, prior, c);
    forall k: nat
      ensures gaps(k + 1) == Shrinking(alpha)(gaps(k))
    {
      GapsShrink(alpha, prior, c, k);
    }
    GapsIterate(gaps, Shrinking(alpha), n);
  }

  lemma GapIterates(alpha: real, prior: real, c: real, n: nat, gap: real)
    requires 0.0 <= alpha <= 1.0 && prior >= 0.0 && c >= 0.0 && gap == prior - c
    ensures Level(alpha, prior, Repeated(c, n)) - c == Iterate(Shrinking(alpha), gap, n)
  {
    GapsDecay(alpha, prior, c, n);
    FirstGap(alpha, prior, c);
  }

  /** After `n` observations of a constant cost exactly `(1 - alpha)^n` of the initial gap is left. */
  lemma GapDecaysGeometrically(alpha: real, prior: real, c: real, n: nat, gap: real)
    requires 0.0 <= alpha <= 1.0 && prior >= 0.0 && c >= 0.0 && gap == prior - c
    ensures Level(alpha, prior, Repeated(c, n)) - c == Power(1.0 - alpha, n) * gap
  {
    GapIterates(alpha, prior, c, n, gap);
    ShrinkingIsPower(alpha, gap, n);
  }

  /** Every cost observed for the action lies between the bounds. */
  predicate OwnCostsWithin(observations: seq<Observation>, id: string, lo: real, hi: real) {
    forall i :: 0 <= i < |observations| && observations[i].id == id ==> lo <= observations[i].cost <= hi
  }

  lemma {:induction false} OwnWithin(observations: seq<Observation>, id: string, lo: real, hi: real)
    requires OwnCostsWithin(observations, id, lo, hi)
    ensures forall i :: 0 <= i < |Own(observations, id)| ==> lo <= Own(observations, id)[i] <= hi
  {
    if observations != [] {
      OwnWithin(observations[..|observations| - 1], id, lo, hi);
    }
  }

  /** After any run of observations the expected cost is exactly prior plus residual, within any
      nonnegative bounds that hold for the prior and the action's own costs, and p95 is not below
      it if the prior's is not. */
  lemma ForecastIsSound(cfg: Config, observations: seq<Observation>, id: string, lo: real, hi: real)
    requires id in cfg.priors && 0.0 <= cfg.alpha <= 1.0 && 0.0 <= lo <= cfg.priors[id].expected <= hi
    requires OwnCostsWithin(observations, id, lo, hi)
    ensures var f := Forecast(cfg, Run(cfg, observations), id);
            && f.expected == cfg.priors[id].expected + Residual(Run(cfg, observations), id)
            && lo <= f.expected <= hi
            && (cfg.priors[id].p95 >= cfg.priors[id].expected ==> f.p95 >= f.expected)
  {
    ForecastIsItsOwn(cfg, observations, id);
    OwnWithin(observations, id, lo, hi);
    LevelStaysInHull(cfg.alpha, cfg.priors[id].expected, Own(observations, id), lo, hi);
  }

  /** Once stale, an action stays stale, whatever is observed later. */
  lemma {:induction false} StalenessIsKept(cfg: Config, observations: seq<Observation>, n: nat, id: string)
    requires n <= |observations| && id in cfg.priors && Forecast(cfg, Run(cfg, observations[..n]), id).stale
    ensures Forecast(cfg, Run(cfg, observations), id).stale
    decreases |observations|
  {
    if n == |observations| {
      assert observations[..n] == observations;
    } else {
      var init := observations[..|observations| - 1];
      assert init[..n] == observations[..n];
      StalenessIsKept(cfg, init, n, id);
    }
  }

  // ----- Staleness and the upper forecast

  lemma QuotientExceeds(a: real, b: real, threshold: real)
    requires b > 0.0
    ensures a / b > threshold <==> a > threshold * b
  {
    assert a == (a / b) * b;
    if a / b > threshold {
      Scale(a / b, threshold, b);
    } else {
      ScaleWeak(a / b, threshold, b);
    }
  }

  lemma Scale(x: real, y: real, b: real)
    requires b > 0.0 && x > y
    ensures x * b > y * b
  {
    assert (x - y) * b > 0.0;
    assert (x - y) * b == x * b - y * b;
  }

  lemma ScaleWeak(x: real, y: real, b: real)
    requires b > 0.0 && x <= y
    ensures x * b <= y * b
  {
    ProductNonnegative(y - x, b);
    assert (y - x) * b == y * b - x * b;
  }

  /** An observation makes its action stale exactly when it already was, or when it is off the expected
      cost by more than the threshold's share of it; no other action changes. */
  lemma StaleExactlyWhen(cfg: Config, t: Twin, id: string, cost: real, other: string, scale: real)
    requires id in cfg.priors && other in cfg.priors
    requires scale == if Forecast(cfg, t, id).expected >= EPSILON then Forecast(cfg, t, id).expected else EPSILON
    ensures Forecast(cfg, Observed(cfg, t, id, cost), other).stale <==>
              || Forecast(cfg, t, other).stale
              || (other == id && (cost - Forecast(cfg, t, id).expected > cfg.threshold * scale
                                  || Forecast(cfg, t, id).expected - cost > cfg.threshold * scale
                                  || (cost == Forecast(cfg, t, id).expected && 0.0 > cfg.threshold * scale)))
  {
    var error := cost - Forecast(cfg, t, id).expected;
    QuotientExceeds(Abs(error), scale, cfg.threshold);
    Negatives(error, cfg.threshold * scale);
  }

  lemma Negatives(error: real, limit: real)
    ensures Abs(error) > limit <==> error > limit || -error > limit || (error == 0.0 && 0.0 > limit)
  {
  }

  /** After any run, the upper forecast exceeds its prior by exactly the distance the expected cost
      moved from its own. */
  lemma UpperForecastMoves(cfg: Config, observations: seq<Observation>, id: string, lo: real, hi: real)
    requires id in cfg.priors && 0.0 <= cfg.alpha <= 1.0 && 0.0 <= lo <= cfg.priors[id].expected <= hi
    requires OwnCostsWithin(observations, id, lo, hi) && cfg.priors[id].p95 >= 0.0
    ensures var f := Forecast(cfg, Run(cfg, observations), id);
            f.p95 - cfg.priors[id].p95 == if f.expected >= cfg.priors[id].expected then f.expected - cfg.priors[id].expected else cfg.priors[id].expected - f.expected
  {
    ForecastIsSound(cfg, observations, id, lo, hi);
  }
}
