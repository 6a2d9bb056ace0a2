/** Ranking optimisation runs by composite score, best first, ties by parameter id. */
module OptimizationRanking {
  import opened Wrappers
  import opened Sorting

  datatype Score<R> = Score(parameterId: string, score: real, run: R)

  datatype Ranked<R> = Ranked(rank: int, item: Score<R>)

  predicate ScoreLeq<R>(a: Score<R>, b: Score<R>) {
    a.score > b.score || (a.score == b.score && LexLeq(a.parameterId, b.parameterId))
  }

  /** The check a score report's constructor makes. */
  ghost predicate DistinctIds<R>(scores: seq<Score<R>>) {
    forall i, j :: 0 <= i < j < |scores| ==> scores[i].parameterId != scores[j].parameterId
  }

  /** The checks a ranking's constructor makes. */
  ghost predicate RankingAccepted<R>(items: seq<Ranked<R>>) {
    && (forall i :: 0 <= i < |items| ==> items[i].rank == i + 1)
    && (forall i, j :: 0 <= i < j < |items| ==> items[i].item.parameterId != items[j].item.parameterId)
  }

  const BAD_TOP := "top_n must be greater than zero"

  function Numbered<R>(scores: seq<Score<R>>): seq<Ranked<R>> {
    seq(|scores|, i requires 0 <= i < |scores| => Ranked(i + 1, scores[i]))
  }

  function Rank<R>(scores: seq<Score<R>>, topN: Option<int>): Outcome<seq<Ranked<R>>, string> {
    if topN.Some? && topN.value <= 0 then Raised(BAD_TOP)
    else
      var ordered := Sort(scores, ScoreLeq);
      Returned(Numbered(if topN.Some? && topN.value < |ordered| then ordered[..topN.value] else ordered))
  }

  // ---- The order ----

  lemma ScoreOrder<R(!new)>()
    ensures TotalPreorder<Score<R>>(ScoreLeq)
  {
    LexIsTotalOrder();
  }

  /** With distinct ids the sorted scores are strictly ordered. */
  lemma SortedStrictly<R(!new)>(scores: seq<Score<R>>)
    requires DistinctIds(scores)
    ensures StrictlyOrdered(Sort(scores, ScoreLeq), ScoreLeq)
  {
    var leq: (Score<R>, Score<R>) -> bool := ScoreLeq;
    var sorted := Sort(scores, leq);
    ScoreOrder<R>();
    LexIsTotalOrder();
    SortOrdered(scores, leq);
    SortNoDuplicates(scores, leq);
    SortMembers(scores, leq);
    forall i, j | 0 <= i < j < |sorted|
      ensures leq(sorted[i], sorted[j]) && !leq(sorted[j], sorted[i])
    {
      assert sorted[i] in scores && sorted[j] in scores;
      var m :| 0 <= m < |scores| && scores[m] == sorted[i];
      var n :| 0 <= n < |scores| && scores[n] == sorted[j];
    }
  }

  /** The ranking does not depend on the order of the scores. */
  lemma RankingIsCanonical<R(!new)>(a: seq<Score<R>>, b: seq<Score<R>>, topN: Option<int>)
    requires DistinctIds(a) && multiset(a) == multiset(b)
    ensures Rank(a, topN) == Rank(b, topN)
  {
    var leq: (Score<R>, Score<R>) -> bool := ScoreLeq;
    SortMembers(a, leq);
    SortMembers(b, leq);
    forall x
      ensures x in a <==> x in b
    {
      assert x in a <==> x in multiset(a);
      assert x in b <==> x in multiset(b);
    }
    DistinctByMultiset(a, b);
    SortedStrictly(a);
    SortedStrictly(b);
    SameElementsSameSequence(Sort(a, leq), Sort(b, leq), leq);
  }

  lemma DistinctByMultiset<R>(a: seq<Score<R>>, b: seq<Score<R>>)
    requires DistinctIds(a) && multiset(a) == multiset(b)
    ensures DistinctIds(b)
  {
    forall i, j | 0 <= i < j < |b|
      ensures b[i].parameterId != b[j].parameterId
    {
      if b[i].parameterId == b[j].parameterId {
        assert b[i] in multiset(a) && b[j] in multiset(a);
        var m :| 0 <= m < |a| && a[m] == b[i];
        var n :| 0 <= n < |a| && a[n] == b[j];
        assert m == n;
        CountTwice(b, i, j);
        CountOnce(a, m);
      }
    }
  }

  lemma CountTwice<T>(xs: seq<T>, i: nat, j: nat)
    requires i < j < |xs| && xs[i] == xs[j]
    ensures multiset(xs)[xs[i]] >= 2
  {
    assert xs == xs[..j] + [xs[j]] + xs[j + 1..];
    assert xs[..j][i] == xs[i];
    assert xs[i] in multiset(xs[..j]);
  }

  lemma CountOnce<T>(xs: seq<T>, i: nat)
    requires i < |xs| && forall j :: 0 <= j < |xs| && j != i ==> xs[j] != xs[i]
    ensures multiset(xs)[xs[i]] == 1
  {
    assert xs == xs[..i] + [xs[i]] + xs[i + 1..];
    assert xs[i] !in xs[..i] && xs[i] !in xs[i + 1..];
  }

  predicate IsAhead<R>(y: Score<R>, x: Score<R>) {
    y.score > x.score
    || (y.score == x.score && y.parameterId != x.parameterId && LexLeq(y.parameterId, x.parameterId))
  }

  /** The runs strictly ahead of one: a higher score, or the same score and a smaller id. */
  function Ahead<R>(scores: seq<Score<R>>, x: Score<R>): seq<Score<R>> {
    Keep(scores, y => IsAhead(y, x))
  }

  /** The rank of a run is one more than the number of runs strictly ahead of it. */
  lemma RankCountsAhead<R(!new)>(scores: seq<Score<R>>, i: nat)
    requires DistinctIds(scores) && i < |scores|
    ensures
      var items := Rank(scores, None).value;
      i < |items| && items[i].item in scores && items[i].rank == 1 + |Ahead(scores, items[i].item)|
  {
    var leq: (Score<R>, Score<R>) -> bool := ScoreLeq;
    var sorted := Sort(scores, leq);
    SortMembers(scores, leq);
    var x := sorted[i];
    var ahead := (y: Score<R>) => IsAhead(y, x);
    SortedStrictly(scores);
    LexIsTotalOrder();
    forall j | 0 <= j < |sorted|
      ensures ahead(sorted[j]) <==> 0 <= j < i
    {
      if j < i {
        assert leq(sorted[j], x) && !leq(x, sorted[j]);
      }
      if i < j {
        assert leq(x, sorted[j]) && !leq(sorted[j], x);
      }
    }
    KeepRange(sorted, ahead, 0, i);
    ScoreOrder<R>();
    KeepSort(scores, leq, ahead);
    SortMembers(Keep(scores, ahead), leq);
  }

  lemma NumberedAccepted<R>(scores: seq<Score<R>>)
    requires DistinctIds(scores)
    ensures RankingAccepted(Numbered(scores))
  {
  }

  lemma NumberedPrefix<R>(scores: seq<Score<R>>, k: nat)
    requires k <= |scores|
    ensures Numbered(scores[..k]) == Numbered(scores)[..k]
  {
  }

  /** A ranking is refused exactly when a number of places is asked for that is not positive. */
  lemma RankRefusesExactly<R>(scores: seq<Score<R>>, topN: Option<int>)
    ensures Rank(scores, topN).Raised? <==> topN.Some? && topN.value < 1
    ensures Rank(scores, topN).Raised? ==> Rank(scores, topN).fault == BAD_TOP
  {
  }

  /** The best n are the first n of the full ranking, and every ranking passes its checks. */
  lemma TopIsPrefix<R(!new)>(scores: seq<Score<R>>, n: int)
    requires DistinctIds(scores) && n > 0
    ensures
      var all, top := Rank(scores, None).value, Rank(scores, Some(n)).value;
      && |all| == |scores|
      && top == all[..if n < |all| then n else |all|]
      && RankingAccepted(all) && RankingAccepted(top)
  {
    var leq: (Score<R>, Score<R>) -> bool := ScoreLeq;
    var sorted := Sort(scores, leq);
    SortMembers(scores, leq);
    DistinctByMultiset(scores, sorted);
    var k := if n < |sorted| then n else |sorted|;
    assert sorted[..|sorted|] == sorted;
    NumberedPrefix(sorted, k);
    NumberedAccepted(sorted);
    NumberedAccepted(sorted[..k]);
    hide Numbered;
  }

  /** The best one is a score that no score is ahead of; there is none only without scores. */
  lemma TopIsLeast<R(!new)>(scores: seq<Score<R>>)
    ensures
      var top := Rank(scores, Some(1)).value;
      if scores == [] then top == []
      else
        && |top| == 1 && top[0].rank == 1 && top[0].item in scores
        && forall x :: x in scores ==> ScoreLeq(top[0].item, x)
  {
    var leq: (Score<R>, Score<R>) -> bool := ScoreLeq;
    var sorted := Sort(scores, leq);
    ScoreOrder<R>();
    SortOrdered(scores, leq);
    SortMembers(scores, leq);
    LexIsTotalOrder();
    forall x | x in sorted
      ensures leq(sorted[0], x)
    {
      var i :| 0 <= i < |sorted| && sorted[i] == x;
    }
  }
}
