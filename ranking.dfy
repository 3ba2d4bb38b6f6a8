/**
 * Ranking by DesirabilityScore, highest first (`sort_values(..., ascending=False)`),
 * the top pick (`.iloc[0]`) and the chart set (`.head(5)`). The order among
 * rows with equal scores is not part of the contract.
 */
module Ranking {
  import opened Wrappers
  import opened Table

  /** Scores never increase along `s`. */
  predicate NonIncreasing(s: seq<Record>) {
    forall i, j :: 0 <= i < j < |s| ==> s[i].desirabilityScore >= s[j].desirabilityScore
  }

  /** `r` inserted into the ranked `s` ahead of the first row that scores no higher. */
  function Insert(r: Record, s: seq<Record>): (u: seq<Record>)
    requires NonIncreasing(s)
    ensures NonIncreasing(u)
    ensures multiset(u) == multiset(s) + multiset{r}
  {
    if s == [] || r.desirabilityScore >= s[0].desirabilityScore then
      [r] + s
    else
      var rest := Insert(r, s[1..]);
      assert s == [s[0]] + s[1..];
      HeadDominates(s[0], rest, s[1..], r);
      [s[0]] + rest
  }

  /** A row scoring at least as high as every row of `tail` and as `r` scores at least as high as every row of a rearrangement of them. */
  lemma HeadDominates(h: Record, rest: seq<Record>, tail: seq<Record>, r: Record)
    requires multiset(rest) == multiset(tail) + multiset{r}
    requires forall k :: 0 <= k < |tail| ==> tail[k].desirabilityScore <= h.desirabilityScore
    requires r.desirabilityScore <= h.desirabilityScore
    requires NonIncreasing(rest)
    ensures NonIncreasing([h] + rest)
  {
    forall k | 0 <= k < |rest| ensures rest[k].desirabilityScore <= h.desirabilityScore {
      assert rest[k] in multiset(rest);
      if rest[k] != r {
        assert rest[k] in multiset(tail);
      }
    }
  }

  /** The rows ordered by descending score. */
  function Rank(s: seq<Record>): (u: seq<Record>)
    ensures NonIncreasing(u)
    ensures multiset(u) == multiset(s)
  {
    if s == [] then []
    else
      assert s == [s[0]] + s[1..];
      Insert(s[0], Rank(s[1..]))
  }

  /** The first row of the ranking, if there is one. */
  function TopPick(s: seq<Record>): (top: Option<Record>)
    ensures top.Some? <==> |s| > 0
    ensures top.Some? ==> top.value in s
    ensures top.Some? ==> forall k :: 0 <= k < |s| ==> s[k].desirabilityScore <= top.value.desirabilityScore
  {
    if s == [] then None
    else
      var u := Rank(s);
      assert u[0] in multiset(u);
      assert forall k :: 0 <= k < |s| ==> s[k] in multiset(u);
      Some(u[0])
  }

  /** How many rows the chart set takes. */
  const ChartSize: nat := 5

  /** The first `ChartSize` rows of the ranking (all of them when there are fewer). */
  function TopFive(s: seq<Record>): seq<Record> {
    var u := Rank(s);
    if |u| <= ChartSize then u else u[..ChartSize]
  }

  /**
   * The chart set has min(5, |s|) rows, is a prefix of the ranking, is drawn
   * from `s`, and no row of `s` left out of it scores higher than a row in it.
   */
  lemma TopFiveSpec(s: seq<Record>)
    ensures var top := TopFive(s);
      && |top| == (if |s| < ChartSize then |s| else ChartSize)
      && top == Rank(s)[..|top|]
      && multiset(top) <= multiset(s)
      && forall x, y :: x in top && y in multiset(s) - multiset(top) ==>
           x.desirabilityScore >= y.desirabilityScore
  {
    var u, top := Rank(s), TopFive(s);
    var n := |top|;
    assert u == top + u[n..];
    assert multiset(u) == multiset(top) + multiset(u[n..]);
    forall x, y | x in top && y in multiset(s) - multiset(top)
      ensures x.desirabilityScore >= y.desirabilityScore
    {
      assert y in u[n..];
      var i :| 0 <= i < n && top[i] == x;
      var j :| 0 <= j < |u| - n && u[n..][j] == y;
      assert u[i] == x && u[n + j] == y;
    }
  }
}
