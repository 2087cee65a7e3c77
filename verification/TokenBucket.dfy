/** The token bucket (c3r/http_service.py:37-64), over real time and real tokens. */
module TokenBucket {

  datatype Rate = Rate(capacity: int, refill: real)

  predicate Positive(r: Rate) { r.capacity >= 1 && r.refill > 0.0 }

  datatype State = State(tokens: real, last: real)

  function Max(a: real, b: real): real { if a >= b then a else b }

  function Min(a: real, b: real): real { if a <= b then a else b }

  /** The tokens available at `now`. */
  function Refilled(r: Rate, s: State, now: real): real {
    Min(r.capacity as real, s.tokens + Max(0.0, now - s.last) * r.refill)
  }

  predicate Granted(r: Rate, s: State, now: real) { Refilled(r, s, now) >= 1.0 }

  function After(r: Rate, s: State, now: real): State {
    State(Refilled(r, s, now) - (if Granted(r, s, now) then 1.0 else 0.0), now)
  }

  class TokenBucket {
    const rate: Rate
    var tokens: real
    var last: real

    function Now(): State
      reads this
    {
      State(tokens, last)
    }

    constructor (rate: Rate, now: real)
      requires Positive(rate)
      ensures this.rate == rate && Now() == State(rate.capacity as real, now)
    {
      this.rate := rate;
      tokens, last := rate.capacity as real, now;
    }

    /** `take`. */
    method Take(now: real) returns (granted: bool)
      modifies this
      ensures granted == Granted(rate, old(Now()), now)
      ensures Now() == After(rate, old(Now()), now)
    {
      tokens := Min(rate.capacity as real, tokens + Max(0.0, now - last) * rate.refill);
      last := now;
      if tokens < 1.0 {
        return false;
      }
      tokens := tokens - 1.0;
      return true;
    }
  }

  predicate InRange(r: Rate, s: State) { 0.0 <= s.tokens <= r.capacity as real }

  /** The count stays between zero and the capacity, whatever the clock does. */
  lemma StaysInRange(r: Rate, s: State, now: real)
    requires Positive(r) && InRange(r, s)
    ensures InRange(r, After(r, s, now))
  {
    assert Max(0.0, now - s.last) * r.refill >= 0.0;
  }

  /** Calls at nondecreasing times, none before `from`. */
  predicate Ordered(times: seq<real>, from: real) {
    && (forall i :: 0 <= i < |times| ==> from <= times[i])
    && (forall i, j :: 0 <= i < j < |times| ==> times[i] <= times[j])
  }

  /** Which of the calls are granted. */
  function Answers(r: Rate, s: State, times: seq<real>): (answers: seq<bool>)
    ensures |answers| == |times|
    decreases |times|
  {
    if times == [] then [] else [Granted(r, s, times[0])] + Answers(r, After(r, s, times[0]), times[1..])
  }

  function CountTrue(answers: seq<bool>): nat {
    if answers == [] then 0 else (if answers[0] then 1 else 0) + CountTrue(answers[1..])
  }

  /** The number of calls granted in the closed interval from `a` to `b`. */
  function GrantsIn(answers: seq<bool>, times: seq<real>, a: real, b: real): nat
    requires |answers| == |times|
  {
    if times == [] then 0
    else (if answers[0] && a <= times[0] <= b then 1 else 0) + GrantsIn(answers[1..], times[1..], a, b)
  }

  // ----- Any clock

  /** The state after the calls. */
  function StateAfter(r: Rate, s: State, times: seq<real>): State
    decreases |times|
  {
    if times == [] then s else StateAfter(r, After(r, s, times[0]), times[1..])
  }

  lemma {:induction false} AnswersFrom(r: Rate, s: State, times: seq<real>, i: nat)
    requires i <= |times|
    ensures Answers(r, s, times)[i..] == Answers(r, StateAfter(r, s, times[..i]), times[i..])
    decreases i
  {
    if i > 0 {
      AnswersFrom(r, After(r, s, times[0]), times[1..], i - 1);
      assert times[1..][..i - 1] == times[..i][1..] && times[1..][i - 1..] == times[i..];
      assert Answers(r, s, times)[i..] == Answers(r, s, times)[1..][i - 1..];
    } else {
      assert times[..0] == [] && times[0..] == times;
    }
  }

  lemma {:induction false} AnswersUpTo(r: Rate, s: State, times: seq<real>, n: nat)
    requires n <= |times|
    ensures Answers(r, s, times)[..n] == Answers(r, s, times[..n])
    decreases n
  {
    if n > 0 {
      AnswersUpTo(r, After(r, s, times[0]), times[1..], n - 1);
      assert times[1..][..n - 1] == times[..n][1..];
    }
  }

  /** How far the clock moves forward over the calls, from a reading `last` before them; moving
      back counts nothing. */
  function ForwardFrom(last: real, times: seq<real>): real
    decreases |times|
  {
    if times == [] then 0.0 else Max(0.0, times[0] - last) + ForwardFrom(times[0], times[1..])
  }

  /** The same from the first call on. */
  function Forward(times: seq<real>): real {
    if times == [] then 0.0 else ForwardFrom(times[0], times[1..])
  }

  /** The tokens that drip in over the calls. */
  function Dripped(r: Rate, last: real, times: seq<real>): real
    decreases |times|
  {
    if times == [] then 0.0 else Drip(r, last, times[0]) + Dripped(r, times[0], times[1..])
  }

  function Drip(r: Rate, last: real, now: real): real { Max(0.0, now - last) * r.refill }

  lemma Distribute(refill: real, x: real, y: real)
    ensures x * refill + refill * y == refill * (x + y)
  {
  }

  lemma {:induction false} DrippedIsForward(r: Rate, last: real, times: seq<real>)
    ensures Dripped(r, last, times) == r.refill * ForwardFrom(last, times)
    decreases |times|
  {
    if times != [] {
      DrippedIsForward(r, times[0], times[1..]);
      Distribute(r.refill, Max(0.0, times[0] - last), ForwardFrom(times[0], times[1..]));
    }
  }

  lemma {:induction false} StateStaysInRange(r: Rate, s: State, times: seq<real>)
    requires Positive(r) && InRange(r, s)
    ensures InRange(r, StateAfter(r, s, times))
    decreases |times|
  {
    if times != [] {
      StaysInRange(r, s, times[0]);
      StateStaysInRange(r, After(r, s, times[0]), times[1..]);
    }
  }

  /** What a call leaves, with what it took, is at most what was there and what dripped in. */
  lemma CallSpends(r: Rate, s: State, now: real)
    ensures After(r, s, now).tokens + (if Granted(r, s, now) then 1.0 else 0.0) <= s.tokens + Drip(r, s.last, now)
  {
  }

  lemma {:induction false} SpentFrom(r: Rate, s: State, times: seq<real>)
    requires Positive(r) && InRange(r, s)
    ensures CountTrue(Answers(r, s, times)) as real <= s.tokens + Dripped(r, s.last, times)
    decreases |times|
  {
    if times != [] {
      StaysInRange(r, s, times[0]);
      CallSpends(r, s, times[0]);
      SpentFrom(r, After(r, s, times[0]), times[1..]);
    }
  }

  /** The tokens that drip in between the first call and the last. */
  function DrippedWithin(r: Rate, times: seq<real>): real {
    if times == [] then 0.0 else Dripped(r, times[0], times[1..])
  }

  lemma DrippedWithinIsForward(r: Rate, times: seq<real>, forward: real)
    requires forward == Forward(times)
    ensures DrippedWithin(r, times) == r.refill * forward
  {
    if times != [] {
      DrippedIsForward(r, times[0], times[1..]);
    }
  }

  lemma FirstCallLeaves(r: Rate, s: State, now: real)
    ensures After(r, s, now).tokens + (if Granted(r, s, now) then 1.0 else 0.0) <= r.capacity as real
  {
  }

  lemma SpentWithin(r: Rate, s: State, times: seq<real>)
    requires Positive(r) && InRange(r, s)
    ensures CountTrue(Answers(r, s, times)) as real <= r.capacity as real + DrippedWithin(r, times)
  {
    if times != [] {
      StaysInRange(r, s, times[0]);
      FirstCallLeaves(r, s, times[0]);
      SpentFrom(r, After(r, s, times[0]), times[1..]);
    }
  }

  /** The answers in a stretch are those of the bucket as the earlier calls left it. */
  lemma AnswersWithin(r: Rate, s: State, times: seq<real>, i: nat, j: nat)
    requires i <= j <= |times|
    ensures Answers(r, s, times)[i..j] == Answers(r, StateAfter(r, s, times[..i]), times[i..j])
  {
    AnswersFrom(r, s, times, i);
    AnswersUpTo(r, StateAfter(r, s, times[..i]), times[i..], j - i);
    assert times[i..][..j - i] == times[i..j];
    assert Answers(r, s, times)[i..j] == Answers(r, s, times)[i..][..j - i];
  }

  lemma StretchDrips(r: Rate, s: State, times: seq<real>, i: nat, j: nat)
    requires Positive(r) && InRange(r, s) && i <= j <= |times|
    ensures CountTrue(Answers(r, s, times)[i..j]) as real <= r.capacity as real + DrippedWithin(r, times[i..j])
  {
    StateStaysInRange(r, s, times[..i]);
    AnswersWithin(r, s, times, i, j);
    SpentWithin(r, StateAfter(r, s, times[..i]), times[i..j]);
  }

  /** Whatever the clock does, the calls granted in any stretch of consecutive calls are at most
      the capacity plus the refill rate times the forward movement of the clock in that stretch. */
  lemma StretchBound(r: Rate, s: State, times: seq<real>, i: nat, j: nat, forward: real)
    requires Positive(r) && InRange(r, s) && i <= j <= |times| && forward == Forward(times[i..j])
    ensures CountTrue(Answers(r, s, times)[i..j]) as real <= r.capacity as real + r.refill * forward
  {
    StretchDrips(r, s, times, i, j);
    DrippedWithinIsForward(r, times[i..j], forward);
  }

  // ----- A clock that never goes back

  lemma {:induction false} NoneLater(answers: seq<bool>, times: seq<real>, a: real, b: real)
    requires |answers| == |times| && forall i :: 0 <= i < |times| ==> times[i] > b
    ensures GrantsIn(answers, times, a, b) == 0
  {
    if times != [] {
      NoneLater(answers[1..], times[1..], a, b);
    }
  }

  /** From inside the interval on, the calls within it come first. */
  lemma {:induction false} IntervalStarts(answers: seq<bool>, times: seq<real>, a: real, b: real) returns (n: nat)
    requires |answers| == |times| && Ordered(times, a)
    ensures n <= |times| && (forall k :: 0 <= k < n ==> times[k] <= b)
    ensures GrantsIn(answers, times, a, b) == CountTrue(answers[..n])
  {
    if times == [] || times[0] > b {
      NoneLater(answers, times, a, b);
      n := 0;
    } else {
      n := IntervalStarts(answers[1..], times[1..], a, b);
      n := n + 1;
      assert answers[..n][1..] == answers[1..][..n - 1];
    }
  }

  /** The calls within an interval are a stretch of consecutive calls. */
  lemma {:induction false} IntervalIsStretch(answers: seq<bool>, times: seq<real>, a: real, b: real) returns (i: nat, j: nat)
    requires |answers| == |times| && forall m, n :: 0 <= m < n < |times| ==> times[m] <= times[n]
    ensures i <= j <= |times| && (forall k :: i <= k < j ==> a <= times[k] <= b)
    ensures GrantsIn(answers, times, a, b) == CountTrue(answers[i..j])
  {
    if times == [] || a <= times[0] {
      j := IntervalStarts(answers, times, a, b);
      i := 0;
      assert answers[0..j] == answers[..j];
    } else {
      i, j := IntervalIsStretch(answers[1..], times[1..], a, b);
      assert answers[1..][i..j] == answers[i + 1..j + 1];
      i, j := i + 1, j + 1;
    }
  }

  lemma {:induction false} OrderedForward(last: real, times: seq<real>, to: real)
    requires Ordered(times, last) && last <= to && forall i :: 0 <= i < |times| ==> times[i] <= to
    ensures 0.0 <= ForwardFrom(last, times) <= to - last
    decreases |times|
  {
    if times != [] {
      OrderedForward(times[0], times[1..], to);
    }
  }

  lemma ForwardWithin(times: seq<real>, a: real, b: real)
    requires a <= b && Ordered(times, a) && forall i :: 0 <= i < |times| ==> times[i] <= b
    ensures Forward(times) <= b - a
  {
    if times != [] {
      OrderedForward(times[0], times[1..], b);
    }
  }

  lemma ScaleOrder(refill: real, x: real, y: real)
    requires refill > 0.0 && x <= y
    ensures refill * x <= refill * y
  {
    assert refill * (y - x) >= 0.0;
  }

  lemma DripsAtMost(r: Rate, times: seq<real>, a: real, b: real, limit: real)
    requires Positive(r) && a <= b && Ordered(times, a) && (forall i :: 0 <= i < |times| ==> times[i] <= b)
    requires limit == r.refill * (b - a)
    ensures DrippedWithin(r, times) <= limit
  {
    ForwardWithin(times, a, b);
    ScaleOrder(r.refill, Forward(times), b - a);
    DrippedWithinIsForward(r, times, Forward(times));
  }

  /** A bound for every stretch by its credit is a bound for every interval. */
  lemma StretchToInterval(capacity: real, credit: seq<real> -> real, answers: seq<bool>, times: seq<real>, a: real, b: real, limit: real)
    requires |answers| == |times| && forall m, n :: 0 <= m < n < |times| ==> times[m] <= times[n]
    requires forall i, j :: 0 <= i <= j <= |times| ==> CountTrue(answers[i..j]) as real <= capacity + credit(times[i..j])
    requires forall t :: Ordered(t, a) && (forall i :: 0 <= i < |t| ==> t[i] <= b) ==> credit(t) <= limit
    ensures GrantsIn(answers, times, a, b) as real <= capacity + limit
  {
    var i, j := IntervalIsStretch(answers, times, a, b);
    assert credit(times[i..j]) <= limit by { assert Ordered(times[i..j], a); }
  }

  lemma IntervalDrips(r: Rate, s: State, times: seq<real>, a: real, b: real, limit: real)
    requires Positive(r) && InRange(r, s) && Ordered(times, s.last) && a <= b && limit == r.refill * (b - a)
    ensures GrantsIn(Answers(r, s, times), times, a, b) as real <= r.capacity as real + limit
  {
    var answers, credit := Answers(r, s, times), (t: seq<real>) => DrippedWithin(r, t);
    forall i, j | 0 <= i <= j <= |times|
      ensures CountTrue(answers[i..j]) as real <= r.capacity as real + credit(times[i..j])
    {
      StretchDrips(r, s, times, i, j);
    }
    forall t | Ordered(t, a) && (forall i :: 0 <= i < |t| ==> t[i] <= b)
      ensures credit(t) <= limit
    {
      DripsAtMost(r, t, a, b, limit);
    }
    StretchToInterval(r.capacity as real, credit, answers, times, a, b, limit);
  }

  /** For every nondecreasing clock, the calls granted in an interval are at most the capacity
      plus what the refill rate allows for its length. */
  lemma IntervalBound(r: Rate, s: State, times: seq<real>, a: real, b: real)
    requires Positive(r) && InRange(r, s) && Ordered(times, s.last) && a <= b
    ensures GrantsIn(Answers(r, s, times), times, a, b) as real <= r.capacity as real + r.refill * (b - a)
  {
    IntervalDrips(r, s, times, a, b, r.refill * (b - a));
  }

  /** The limit is not stricter than it says: a call that comes at least one refill period after
      the previous one is granted. */
  lemma RefillPeriodSuffices(r: Rate, s: State, now: real)
    requires Positive(r) && InRange(r, s) && now - s.last >= 1.0 / r.refill
    ensures Granted(r, s, now)
  {
    assert (now - s.last) * r.refill >= (1.0 / r.refill) * r.refill == 1.0;
  }

  /** A clock that goes back and forth is credited twice: two grants at one instant from a
      bucket of capacity one. */
  lemma BackwardClockBreaksTheBound()
    ensures var r, s, times := Rate(1, 1.0), State(1.0, 0.0), [0.0, -5.0, 0.0];
            GrantsIn(Answers(r, s, times), times, 0.0, 0.0) == 2
  {
    var r, s0 := Rate(1, 1.0), State(1.0, 0.0);
    var s1 := After(r, s0, 0.0);
    var s2 := After(r, s1, -5.0);
    assert s1 == State(0.0, 0.0) && s2 == State(0.0, -5.0) && Granted(r, s2, 0.0);
    assert [0.0, -5.0, 0.0][1..] == [-5.0, 0.0] && [-5.0, 0.0][1..] == [0.0] && [0.0][1..] == [];
    assert Answers(r, s2, [0.0]) == [true];
    assert Answers(r, s1, [-5.0, 0.0]) == [false, true];
    assert Answers(r, s0, [0.0, -5.0, 0.0]) == [true, false, true];
    assert [true, false, true][1..] == [false, true] && [false, true][1..] == [true];
    assert GrantsIn([true], [0.0], 0.0, 0.0) == 1;
    assert GrantsIn([false, true], [-5.0, 0.0], 0.0, 0.0) == 1;
  }

  predicate AllTrue(answers: seq<bool>) { forall i :: 0 <= i < |answers| ==> answers[i] }

  /** A bucket that holds `n` tokens grants the next `n` calls, whatever the clock does. */
  lemma {:induction false} TokensAreGranted(r: Rate, s: State, times: seq<real>)
    requires Positive(r) && InRange(r, s) && s.tokens >= |times| as real
    ensures AllTrue(Answers(r, s, times))
    decreases |times|
  {
    if times != [] {
      var after := After(r, s, times[0]);
      CallKeeps(r, s, times[0]);
      StaysInRange(r, s, times[0]);
      TokensAreGranted(r, after, times[1..]);
    }
  }

  lemma CallKeeps(r: Rate, s: State, now: real)
    requires Positive(r) && InRange(r, s) && s.tokens >= 1.0
    ensures Granted(r, s, now) && After(r, s, now).tokens >= s.tokens - 1.0
  {
    assert Max(0.0, now - s.last) * r.refill >= 0.0;
  }

  /** A new bucket grants a burst of its whole capacity. */
  lemma BurstIsGranted(r: Rate, start: real, times: seq<real>)
    requires Positive(r) && |times| <= r.capacity
    ensures AllTrue(Answers(r, State(r.capacity as real, start), times))
  {
    TokensAreGranted(r, State(r.capacity as real, start), times);
  }
}
