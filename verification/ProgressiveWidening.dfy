/** Progressive widening of a ranked list (c3r/progressive_widening.py). */
module ProgressiveWidening {
  import opened Schema
  import opened Ranking

  /** The sort key `(-optimistic_utility, id)`. */
  predicate RanksBefore(a: ActionCandidate, b: ActionCandidate) {
    a.optimisticUtility > b.optimisticUtility ||
    (a.optimisticUtility == b.optimisticUtility && StringLess(a.id, b.id))
  }

  function Ranked(candidates: seq<ActionCandidate>): seq<ActionCandidate> {
    Sort(candidates, RanksBefore)
  }

  predicate ValidBounds(initialWidth: int, maximumWidth: int) {
    1 <= initialWidth <= maximumWidth
  }

  function Min(a: int, b: int): int {
    if a <= b then a else b
  }

  function Gap(ordered: seq<ActionCandidate>, k: int): real
    requires 0 < k < |ordered|
  {
    ordered[k - 1].optimisticUtility - ordered[k].optimisticUtility
  }

  /** `w` may be the width: it is at least the initial width, at most the maximum, and
      stops only at the maximum, at the end, or at a gap above the margin. */
  predicate Stops(ordered: seq<ActionCandidate>, initialWidth: int, maximumWidth: int, margin: real, w: int) {
    && Min(initialWidth, |ordered|) <= w <= |ordered|
    && (w >= Min(maximumWidth, |ordered|) || (0 < w < |ordered| && Gap(ordered, w) > margin))
  }

  ghost predicate IsWidth(ordered: seq<ActionCandidate>, initialWidth: int, maximumWidth: int, margin: real, w: int) {
    && Stops(ordered, initialWidth, maximumWidth, margin, w)
    && forall v :: Stops(ordered, initialWidth, maximumWidth, margin, v) ==> w <= v
  }

  /** The width the loop reaches from `w`. */
  function WidthFrom(ordered: seq<ActionCandidate>, initialWidth: int, maximumWidth: int, margin: real, w: int): (width: int)
    requires 0 <= w <= |ordered|
    ensures w <= width <= |ordered|
    decreases |ordered| - w
  {
    if Stops(ordered, initialWidth, maximumWidth, margin, w) || w == |ordered| then w
    else WidthFrom(ordered, initialWidth, maximumWidth, margin, w + 1)
  }

  /** The candidates kept by `widen_when_margin_is_small`. */
  function Widened(candidates: seq<ActionCandidate>, initialWidth: int, maximumWidth: int, margin: real): seq<ActionCandidate> {
    Ranked(candidates)[..WidthFrom(Ranked(candidates), initialWidth, maximumWidth, margin, 0)]
  }

  lemma {:induction false} WidthFromIsLeast(ordered: seq<ActionCandidate>, initialWidth: int, maximumWidth: int, margin: real, w: int, v: int)
    requires 0 <= w <= v && Stops(ordered, initialWidth, maximumWidth, margin, v)
    ensures WidthFrom(ordered, initialWidth, maximumWidth, margin, w) <= v
    ensures Stops(ordered, initialWidth, maximumWidth, margin, WidthFrom(ordered, initialWidth, maximumWidth, margin, w))
    decreases v - w
  {
    if !Stops(ordered, initialWidth, maximumWidth, margin, w) && w < v {
      WidthFromIsLeast(ordered, initialWidth, maximumWidth, margin, w + 1, v);
    }
  }

  /** Widening keeps the shortest ranked prefix that may stop. */
  lemma WidenedIsShortest(candidates: seq<ActionCandidate>, initialWidth: int, maximumWidth: int, margin: real)
    requires ValidBounds(initialWidth, maximumWidth)
    ensures Widened(candidates, initialWidth, maximumWidth, margin) <= Ranked(candidates)
    ensures IsWidth(Ranked(candidates), initialWidth, maximumWidth, margin, |Widened(candidates, initialWidth, maximumWidth, margin)|)
    ensures |Widened(candidates, initialWidth, maximumWidth, margin)| <= maximumWidth
    ensures candidates != [] ==> Widened(candidates, initialWidth, maximumWidth, margin) != []
  {
    var ordered := Ranked(candidates);
    SortKeeps(candidates, RanksBefore);
    var last := Min(maximumWidth, |ordered|);
    WidthFromIsLeast(ordered, initialWidth, maximumWidth, margin, 0, last);
    forall v | Stops(ordered, initialWidth, maximumWidth, margin, v)
      ensures WidthFrom(ordered, initialWidth, maximumWidth, margin, 0) <= v
    {
      WidthFromIsLeast(ordered, initialWidth, maximumWidth, margin, 0, v);
    }
  }

  /** The only width the specification admits. */
  lemma WidthIsUnique(ordered: seq<ActionCandidate>, initialWidth: int, maximumWidth: int, margin: real, w: int)
    requires ValidBounds(initialWidth, maximumWidth)
    requires IsWidth(ordered, initialWidth, maximumWidth, margin, w)
    ensures w == WidthFrom(ordered, initialWidth, maximumWidth, margin, 0)
  {
    WidthFromIsLeast(ordered, initialWidth, maximumWidth, margin, 0, w);
  }

  /** `widen_when_margin_is_small`; `None` is the raised ValueError. */
  method WidenWhenMarginIsSmall(candidates: seq<ActionCandidate>, initialWidth: int, maximumWidth: int, margin: real)
    returns (kept: Option<seq<ActionCandidate>>)
    ensures kept == if ValidBounds(initialWidth, maximumWidth)
                    then Some(Widened(candidates, initialWidth, maximumWidth, margin)) else None
  {
    if initialWidth < 1 || maximumWidth < initialWidth {
      return None;
    }
    if candidates == [] {
      return Some([]);
    }
    var ordered := Sort(candidates, RanksBefore);
    SortKeeps(candidates, RanksBefore);
    var width := Min(initialWidth, |ordered|);
    while width < Min(maximumWidth, |ordered|)
      invariant Min(initialWidth, |ordered|) <= width <= Min(maximumWidth, |ordered|)
      invariant forall v :: Stops(ordered, initialWidth, maximumWidth, margin, v) ==> width <= v
    {
      var boundary := ordered[width - 1].optimisticUtility - ordered[width].optimisticUtility;
      if boundary > margin {
        break;
      }
      width := width + 1;
    }
    assert Stops(ordered, initialWidth, maximumWidth, margin, width);
    WidthIsUnique(ordered, initialWidth, maximumWidth, margin, width);
    return Some(ordered[..width]);
  }

  lemma RanksBeforeIsStrict()
    ensures StrictOrder(RanksBefore)
  {
    forall x, y | RanksBefore(x, y)
      ensures !RanksBefore(y, x)
    {
      StringLessTotal(x.id, y.id);
    }
    forall x, y, z | RanksBefore(x, y) && RanksBefore(y, z)
      ensures RanksBefore(x, z)
    {
      if StringLess(x.id, y.id) && StringLess(y.id, z.id) {
        StringLessTransitive(x.id, y.id, z.id);
      }
    }
    forall x, y, z | RanksBefore(x, z)
      ensures RanksBefore(x, y) || RanksBefore(y, z)
    {
      StringLessTotal(x.id, y.id);
      StringLessTotal(y.id, z.id);
    }
  }

  /** Candidates with different ids never tie, so ranking and widening forget the input order. */
  lemma WidenedForgetsOrder(a: seq<ActionCandidate>, b: seq<ActionCandidate>, initialWidth: int, maximumWidth: int, margin: real)
    requires multiset(a) == multiset(b)
    requires forall x, y :: x in a && y in a && x.id == y.id ==> x == y
    ensures Ranked(a) == Ranked(b)
    ensures Widened(a, initialWidth, maximumWidth, margin) == Widened(b, initialWidth, maximumWidth, margin)
  {
    RanksBeforeIsStrict();
    forall x, y | x in a && y in a && x != y
      ensures RanksBefore(x, y) || RanksBefore(y, x)
    {
      StringLessTotal(x.id, y.id);
    }
    SortForgetsOrder(a, b, RanksBefore);
  }

  lemma RankedSorted(candidates: seq<ActionCandidate>, i: nat, j: nat)
    requires i < j < |Ranked(candidates)|
    ensures Ranked(candidates)[i].optimisticUtility >= Ranked(candidates)[j].optimisticUtility
    ensures Ranked(candidates)[i].optimisticUtility == Ranked(candidates)[j].optimisticUtility ==>
              !StringLess(Ranked(candidates)[j].id, Ranked(candidates)[i].id)
  {
    RanksBeforeIsStrict();
    SortSorts(candidates, RanksBefore);
    assert !RanksBefore(Ranked(candidates)[j], Ranked(candidates)[i]);
  }

  /** No candidate has a greater utility than the first ranked. */
  lemma FirstRanked(candidates: seq<ActionCandidate>, x: ActionCandidate)
    requires x in candidates
    ensures Ranked(candidates) != [] && x.optimisticUtility <= Ranked(candidates)[0].optimisticUtility
  {
    SortKeeps(candidates, RanksBefore);
    assert x in Ranked(candidates);
    var i :| 0 <= i < |Ranked(candidates)| && Ranked(candidates)[i] == x;
    if i > 0 {
      RankedSorted(candidates, 0, i);
    }
  }

  /** Widening keeps the best: it splits the candidates into kept and dropped, no dropped one has a
      greater utility than a kept one, and among equal utilities the kept ids come first. */
  lemma KeptAreBest(candidates: seq<ActionCandidate>, initialWidth: int, maximumWidth: int, margin: real) returns (dropped: seq<ActionCandidate>)
    ensures var kept := Widened(candidates, initialWidth, maximumWidth, margin);
            && multiset(kept) + multiset(dropped) == multiset(candidates)
            && forall i, j :: 0 <= i < |kept| && 0 <= j < |dropped| ==>
                 && kept[i].optimisticUtility >= dropped[j].optimisticUtility
                 && (kept[i].optimisticUtility == dropped[j].optimisticUtility ==> !StringLess(dropped[j].id, kept[i].id))
  {
    var ranked, kept := Ranked(candidates), Widened(candidates, initialWidth, maximumWidth, margin);
    SortKeeps(candidates, RanksBefore);
    dropped := ranked[|kept|..];
    assert ranked == kept + dropped;
    forall i, j | 0 <= i < |kept| && 0 <= j < |dropped|
      ensures kept[i].optimisticUtility >= dropped[j].optimisticUtility
      ensures kept[i].optimisticUtility == dropped[j].optimisticUtility ==> !StringLess(dropped[j].id, kept[i].id)
    {
      RankedSorted(candidates, i, |kept| + j);
    }
  }
}
