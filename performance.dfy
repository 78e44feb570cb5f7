/**
 * The student's performance page: the per-attempt listing with its
 * percentage, bucket and progress bar; the per-topic strengths table; and
 * the points of the trend line.
 */
module Performance {
  import opened Wrappers
  import opened JsNumber
  import opened Sorting
  import opened Grouping
  import opened Attempts
  import QuizResult

  /** `getBucketLabel`, on the always finite percentages of this page. */
  function BucketLabel(pct: real): (l: string)
    ensures l in {"Low / Below Average", "Average", "Good", "Very Good", "Top 1% / Excellent"}
    ensures l == "Low / Below Average" <==> pct < 50.0
  {
    if pct < 50.0 then "Low / Below Average"
    else if pct <= 75.0 then "Average"
    else if pct < 90.0 then "Good"
    else if pct <= 95.0 then "Very Good"
    else "Top 1% / Excellent"
  }

  /** `getBucketColor`. */
  function BucketColor(pct: real): (c: string)
    ensures c in {"#28a745", "#0d6efd", "#fd7e14", "#dc3545"}
    ensures c == "#dc3545" <==> pct < 50.0
  {
    if pct >= 90.0 then "#28a745"
    else if pct >= 75.0 then "#0d6efd"
    else if pct >= 50.0 then "#fd7e14"
    else "#dc3545"
  }

  /** The page's buckets are the result screen's label and colour on every finite percentage. */
  lemma BucketsMatchQuizResult(pct: real)
    ensures BucketLabel(pct) == QuizResult.StatusLabel(Finite(pct))
    ensures BucketColor(pct) == QuizResult.ScoreColor(Finite(pct))
  {
  }

  /** A rounded percentage of a count within its positive total is a whole number in [0, 100]. */
  lemma ListedInRange(a: Attempt)
    ensures a.score.Num? && a.totalQuestions.Num? && 0.0 <= a.score.n <= a.totalQuestions.n && a.totalQuestions.n > 0.0
            ==> var x := Round(a.score.n / a.totalQuestions.n * 100.0); 0 <= x <= 100
  {
    if a.score.Num? && a.totalQuestions.Num? && 0.0 <= a.score.n <= a.totalQuestions.n && a.totalQuestions.n > 0.0 {
      var c, t := a.score.n, a.totalQuestions.n;
      assert c / t <= 1.0 by { assert c / t * t == c; }
      assert 0.0 <= c / t * 100.0 <= 100.0;
    }
  }

  /** The percentage of one row of the attempt listing. */
  function ListedPercentage(a: Attempt): (p: real)
    ensures a.score.Num? && a.totalQuestions.Num? && 0.0 <= a.score.n <= a.totalQuestions.n && a.totalQuestions.n > 0.0
            ==> 0.0 <= p <= 100.0 && p == p.Floor as real
  {
    ListedInRange(a);
    var score := SafeNumber(a.score, Finite(0.0)).value;
    var totalQ := SafeNumber(Coalesce(a.totalQuestions, Coalesce(a.total, a.questionCount)), Finite(0.0)).value;
    if totalQ > 0.0 then Round(score / totalQ * 100.0) as real
    else SafeNumber(Coalesce(a.percentage, Coalesce(a.accuracy, Num(0.0))), Finite(0.0)).value
  }

  /** With whole counts and a positive total, the listed percentage is `round(100 c / t)`. */
  lemma ListedPercentageOfCounts(a: Attempt, c: int, t: int)
    requires a.score == Num(c as real) && a.totalQuestions == Num(t as real) && t > 0
    ensures ListedPercentage(a) == ((200 * c + t) / (2 * t)) as real
  {
    RoundPercentOfCounts(c, t);
  }

  /** Without a usable positive total, the stored percentage, then accuracy, then 0 is shown. */
  lemma ListedPercentageWithoutTotal(a: Attempt)
    requires a.totalQuestions.IsNullish() && a.total.IsNullish() && a.questionCount.IsNullish()
    ensures a.percentage.Num? ==> ListedPercentage(a) == a.percentage.n
    ensures a.percentage.IsNullish() && a.accuracy.Num? ==> ListedPercentage(a) == a.accuracy.n
    ensures a.percentage.IsNullish() && a.accuracy.IsNullish() ==> ListedPercentage(a) == 0.0
    ensures a.percentage.Junk? ==> ListedPercentage(a) == 0.0
  {
  }

  /** The width of the progress bar: `Math.min(100, Math.max(0, pct))`. */
  function BarWidth(pct: real): (w: real)
    ensures 0.0 <= w <= 100.0
    ensures 0.0 <= pct <= 100.0 ==> w == pct
    ensures pct < 0.0 ==> w == 0.0
    ensures pct > 100.0 ==> w == 100.0
  {
    var low := if pct >= 0.0 then pct else 0.0;
    if low <= 100.0 then low else 100.0
  }

  /**
   * What one attempt adds to its topic's total: the unrounded percentage,
   * or 0 when it is NaN.
   */
  function TopicContribution(a: Attempt): (c: real)
    ensures a.score.Num? && a.totalQuestions.Num? && a.totalQuestions.n > 0.0 ==>
              c == a.score.n / a.totalQuestions.n * 100.0
    ensures !Gt(TotalOrZero(a), 0.0) ==> c == (if StoredPercentage(a).Finite? then StoredPercentage(a).value else 0.0)
  {
    var score := ToNumber(Coalesce(a.score, Num(0.0)));
    var total := TotalOrZero(a);
    var pct := if Gt(total, 0.0) then (if score.Finite? then Finite(score.value / total.value * 100.0) else NaN)
               else StoredPercentage(a);
    if IsFinite(pct) then pct.value else 0.0
  }

  /** An attempt with `0 <= score <= total` and a positive total adds a value in [0, 100]. */
  lemma ContributionInRange(a: Attempt, c: real, t: real)
    requires a.score == Num(c) && a.totalQuestions == Num(t) && 0.0 <= c <= t && t > 0.0
    ensures 0.0 <= TopicContribution(a) <= 100.0
  {
    assert TopicContribution(a) == c / t * 100.0;
    assert c / t <= 1.0;
  }

  /** The attempts as (topic, contribution) pairs, in order. */
  function TopicItems(attempts: seq<Attempt>): seq<(string, real)> {
    Keyed(attempts, TopicLabel, TopicContribution)
  }

  datatype TopicRow = TopicRow(topic: string, avg: int)

  /** One row per key, in key order. */
  function RowsOf(g: Grouped): (rows: seq<TopicRow>)
    requires forall k :: k in g.keys ==> k in g.tallies
    ensures |rows| == |g.keys|
    ensures forall i :: 0 <= i < |rows| ==> rows[i] == TopicRow(g.keys[i], Average(g.tallies[g.keys[i]]))
  {
    seq(|g.keys|, i requires 0 <= i < |g.keys| => TopicRow(g.keys[i], Average(g.tallies[g.keys[i]])))
  }

  /** The strengths table: group the attempts by topic, then one averaged row per topic. */
  method TopicRows(attempts: seq<Attempt>) returns (rows: seq<TopicRow>)
    ensures WellFormed(GroupAll(TopicItems(attempts)))
    ensures rows == RowsOf(GroupAll(TopicItems(attempts)))
  {
    GroupAllWellFormed(TopicItems(attempts));
    var g := Group(TopicItems(attempts));
    rows := RowsOf(g);
  }

  /**
   * Every topic of some attempt has exactly one row, there are no other rows,
   * and a row's average is the rounded mean of the contributions of its
   * attempts, of which there is at least one.
   */
  lemma TopicRowsAreTopicAverages(attempts: seq<Attempt>, i: int)
    requires WellFormed(GroupAll(TopicItems(attempts)))
    requires 0 <= i < |RowsOf(GroupAll(TopicItems(attempts)))|
    ensures var rows := RowsOf(GroupAll(TopicItems(attempts)));
            var items := TopicItems(attempts);
            && Occurrences(items, rows[i].topic) >= 1
            && rows[i].avg == Round(KeySum(items, rows[i].topic) / Occurrences(items, rows[i].topic) as real)
            && (forall j :: 0 <= j < |rows| && j != i ==> rows[j].topic != rows[i].topic)
  {
    var items := TopicItems(attempts);
    var g := GroupAll(items);
    GroupAllTallies(items, g.keys[i]);
  }

  /** Each attempt's topic appears among the rows. */
  lemma EveryTopicHasRow(attempts: seq<Attempt>, k: int)
    requires 0 <= k < |attempts|
    ensures WellFormed(GroupAll(TopicItems(attempts)))
    ensures exists i :: 0 <= i < |RowsOf(GroupAll(TopicItems(attempts)))| &&
                        RowsOf(GroupAll(TopicItems(attempts)))[i].topic == TopicLabel(attempts[k])
  {
    var items := TopicItems(attempts);
    GroupAllWellFormed(items);
    OccurrencesPositive(items, k);
    GroupAllTallies(items, items[k].0);
    var g := GroupAll(items);
    assert items[k].0 in g.keys;
    var i :| 0 <= i < |g.keys| && g.keys[i] == items[k].0;
    assert RowsOf(g)[i].topic == TopicLabel(attempts[k]);
  }

  lemma {:induction false} OccurrencesPositive(items: seq<(string, real)>, k: int)
    requires 0 <= k < |items|
    ensures Occurrences(items, items[k].0) >= 1
    decreases |items|
  {
    if k < |items| - 1 {
      assert items[..|items| - 1][k] == items[k];
      OccurrencesPositive(items[..|items| - 1], k);
    }
  }

  /** The row counts add up to the number of attempts: each attempt is counted once. */
  lemma TopicCountsCoverAttempts(attempts: seq<Attempt>)
    ensures WellFormed(GroupAll(TopicItems(attempts)))
    ensures SumCounts(GroupAll(TopicItems(attempts)).keys, GroupAll(TopicItems(attempts)).tallies) == |attempts|
  {
    GroupAllCountsSum(TopicItems(attempts));
  }

  /** When every attempt adds a value in [0, 100], every row's average lies in [0, 100]. */
  lemma {:induction false} RowAverageInRange(attempts: seq<Attempt>, i: int)
    requires forall j :: 0 <= j < |attempts| ==> 0.0 <= TopicContribution(attempts[j]) <= 100.0
    requires WellFormed(GroupAll(TopicItems(attempts)))
    requires 0 <= i < |RowsOf(GroupAll(TopicItems(attempts)))|
    ensures 0 <= RowsOf(GroupAll(TopicItems(attempts)))[i].avg <= 100
  {
    var items := TopicItems(attempts);
    var g := GroupAll(items);
    var t := g.tallies[g.keys[i]];
    GroupAllTotalBounds(items, 0.0, 100.0, g.keys[i]);
    var n := t.count as real;
    MeanInRange(t.total, n);
    RoundMonotone(0.0, t.total / n);
    RoundMonotone(t.total / n, 100.0);
  }

  lemma MeanInRange(total: real, n: real)
    requires n >= 1.0 && 0.0 <= total <= n * 100.0
    ensures 0.0 <= total / n <= 100.0
  {
  }

  /** `r.avg >= 75 ? 'Strength' : 'Weakness'`. */
  function Assessment(avg: int): string {
    if avg >= 75 then "Strength" else "Weakness"
  }

  /** Strength rows are those with an average of at least 75, and they are drawn blue or green. */
  lemma AssessmentBands(avg: int)
    ensures Assessment(avg) == "Strength" <==> avg >= 75
    ensures Assessment(avg) == "Weakness" <==> avg < 75
    ensures Assessment(avg) == "Strength" <==> BucketColor(avg as real) in {"#0d6efd", "#28a745"}
  {
  }

  /** `a.attemptedAt || a.date || a.createdAt`. */
  function TrendTime(a: Attempt): Option<int> {
    if a.attemptedAt.Some? then a.attemptedAt
    else if a.date.Some? then a.date
    else a.createdAt
  }

  function TrendKey(a: Attempt): int {
    if TrendTime(a).Some? then TrendTime(a).value else 0
  }

  /** The attempts that carry a date, in their original order. */
  function Dated(attempts: seq<Attempt>): (r: seq<Attempt>)
    ensures forall a :: a in r <==> a in attempts && TrendTime(a).Some?
    ensures |r| <= |attempts|
    decreases |attempts|
  {
    if |attempts| == 0 then []
    else
      var rest := Dated(attempts[..|attempts| - 1]);
      var a := attempts[|attempts| - 1];
      assert attempts == attempts[..|attempts| - 1] + [a];
      if TrendTime(a).Some? then rest + [a] else rest
  }

  /** The trend percentage: rounded from the counts, else the rounded stored percentage. */
  function TrendPercentage(a: Attempt): (p: Number)
    ensures p.Finite? ==> p.value == p.value.Floor as real
    ensures a.score.Num? && a.totalQuestions.Num? && a.totalQuestions.n > 0.0 ==>
              p == Finite(Round(a.score.n / a.totalQuestions.n * 100.0) as real)
  {
    var total := TotalOrZero(a);
    var score := ToNumber(Coalesce(a.score, Num(0.0)));
    if Gt(total, 0.0) then (if score.Finite? then Finite(Round(score.value / total.value * 100.0) as real) else NaN)
    else RoundNumber(StoredPercentage(a))
  }

  /** `pct < 50 ? 1 : (pct <= 75 ? 2 : (pct < 90 ? 3 : 4))`. */
  function TrendLevel(pct: Number): (level: int)
    ensures 1 <= level <= 4
  {
    if Lt(pct, 50.0) then 1
    else if Le(pct, 75.0) then 2
    else if Lt(pct, 90.0) then 3
    else 4
  }

  /** The levels partition the line, rise with the percentage, and a NaN percentage is level 4. */
  lemma TrendLevelBands(x: real, y: real)
    ensures TrendLevel(Finite(x)) == 1 <==> x < 50.0
    ensures TrendLevel(Finite(x)) == 2 <==> 50.0 <= x <= 75.0
    ensures TrendLevel(Finite(x)) == 3 <==> 75.0 < x < 90.0
    ensures TrendLevel(Finite(x)) == 4 <==> x >= 90.0
    ensures x <= y ==> TrendLevel(Finite(x)) <= TrendLevel(Finite(y))
    ensures TrendLevel(NaN) == 4
  {
  }

  datatype Point = Point(t: int, level: int, pct: Number)

  function PointOf(a: Attempt): Point {
    Point(TrendKey(a), TrendLevel(TrendPercentage(a)), TrendPercentage(a))
  }

  /** The dated attempts, stably sorted by time, each mapped to its point. */
  function TrendPoints(attempts: seq<Attempt>): (pts: seq<Point>)
    ensures |pts| == |SortBy(Dated(attempts), TrendKey)|
    ensures forall i :: 0 <= i < |pts| ==> pts[i] == PointOf(SortBy(Dated(attempts), TrendKey)[i])
  {
    var sorted := SortBy(Dated(attempts), TrendKey);
    seq(|sorted|, i requires 0 <= i < |sorted| => PointOf(sorted[i]))
  }

  /** The trend has one point per dated attempt and its times never decrease. */
  lemma TrendPointsOrdered(attempts: seq<Attempt>)
    ensures |TrendPoints(attempts)| == |Dated(attempts)|
    ensures forall i, j :: 0 <= i < j < |TrendPoints(attempts)| ==> TrendPoints(attempts)[i].t <= TrendPoints(attempts)[j].t
  {
    var d := Dated(attempts);
    var sorted := SortBy(d, TrendKey);
    SortByProperties(d, TrendKey);
    assert |sorted| == |multiset(sorted)| == |multiset(d)| == |d|;
    var pts := TrendPoints(attempts);
    forall i, j | 0 <= i < j < |pts| ensures pts[i].t <= pts[j].t {
      assert pts[i].t == TrendKey(sorted[i]) && pts[j].t == TrendKey(sorted[j]);
    }
  }

  /** Every point comes from a dated attempt, at that attempt's time. */
  lemma TrendPointsFromDatedAttempts(attempts: seq<Attempt>, i: int)
    requires 0 <= i < |TrendPoints(attempts)|
    ensures exists a :: a in attempts && TrendTime(a) == Some(TrendPoints(attempts)[i].t) && TrendPoints(attempts)[i] == PointOf(a)
  {
    var d := Dated(attempts);
    var sorted := SortBy(d, TrendKey);
    SortByKeepsMembers(d, TrendKey, sorted[i]);
    assert sorted[i] in d;
  }

  /** Each dated attempt is plotted, once per occurrence among the dated attempts. */
  lemma TrendPointsArePermutation(attempts: seq<Attempt>)
    ensures multiset(SortBy(Dated(attempts), TrendKey)) == multiset(Dated(attempts))
  {
    SortByProperties(Dated(attempts), TrendKey);
  }
}
