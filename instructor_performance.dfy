/**
 * The instructor's view of one student: summary figures (attempts, average
 * score, accuracy, highest score), the per-topic table, the strengths and
 * weaknesses lists and the level and pass status.
 */
module InstructorPerformance {
  import opened Wrappers
  import opened JsNumber
  import opened Grouping
  import opened Attempts

  /** The statistics record; its three summary fields may be missing or invalid. */
  datatype Stats = Stats(totalAttempts: Value, avgScore: Value, accuracy: Value, attempts: seq<Attempt>)

  datatype Bucket = Bucket(caption: string, color: string)

  /** `getBucket`. */
  function GetBucket(pct: Number): (b: Bucket)
    ensures b in {Bucket("Low", "#dc3545"), Bucket("Average", "#fd7e14"), Bucket("Good", "#0d6efd"), Bucket("Excellent", "#28a745")}
    ensures b.caption == "Low" <==> Lt(pct, 50.0)
  {
    if Lt(pct, 50.0) then Bucket("Low", "#dc3545")
    else if Le(pct, 75.0) then Bucket("Average", "#fd7e14")
    else if Lt(pct, 90.0) then Bucket("Good", "#0d6efd")
    else Bucket("Excellent", "#28a745")
  }

  /** Four bands, with 75 the top of Average and 90 the bottom of Excellent; NaN is Excellent. */
  lemma GetBucketBands(x: real)
    ensures GetBucket(Finite(x)).caption == "Low" <==> x < 50.0
    ensures GetBucket(Finite(x)).caption == "Average" <==> 50.0 <= x <= 75.0
    ensures GetBucket(Finite(x)).caption == "Good" <==> 75.0 < x < 90.0
    ensures GetBucket(Finite(x)).caption == "Excellent" <==> x >= 90.0
    ensures GetBucket(NaN).caption == "Excellent"
  {
  }

  /** `safeNumber(stats?.totalAttempts, attempts.length)`. */
  function TotalAttempts(s: Stats): (r: Number)
    ensures r.Finite?
    ensures !IsFinite(ToNumber(s.totalAttempts)) ==> r == Finite(|s.attempts| as real)
    ensures IsFinite(ToNumber(s.totalAttempts)) ==> r == ToNumber(s.totalAttempts)
  {
    SafeNumber(s.totalAttempts, Finite(|s.attempts| as real))
  }

  /** `xs.reduce((s, n) => s + n, 0)`. */
  function SumOf(xs: seq<Number>): Number
    decreases |xs|
  {
    if |xs| == 0 then Finite(0.0) else Add(SumOf(xs[..|xs| - 1]), xs[|xs| - 1])
  }

  /** The exact sum of finite numbers. */
  function RealSum(xs: seq<Number>): real
    requires forall i :: 0 <= i < |xs| ==> xs[i].Finite?
    decreases |xs|
  {
    if |xs| == 0 then 0.0 else RealSum(xs[..|xs| - 1]) + xs[|xs| - 1].value
  }

  /** The reduction is a number exactly when every term is, and then it is their sum. */
  lemma {:induction false} SumOfFinite(xs: seq<Number>)
    ensures SumOf(xs).Finite? <==> forall i :: 0 <= i < |xs| ==> xs[i].Finite?
    ensures (forall i :: 0 <= i < |xs| ==> xs[i].Finite?) ==> SumOf(xs) == Finite(RealSum(xs))
    decreases |xs|
  {
    if |xs| > 0 {
      SumOfFinite(xs[..|xs| - 1]);
    }
  }

  /** `Math.round(sum / length)`, or 0 for an empty list. */
  function RoundedMean(xs: seq<Number>): Number {
    if |xs| == 0 then Finite(0.0)
    else var sum := SumOf(xs);
         if sum.Finite? then Finite(Round(sum.value / |xs| as real) as real) else NaN
  }

  /** `Number(a.score ?? 0)`. */
  function RawScore(a: Attempt): Number {
    ToNumber(Coalesce(a.score, Num(0.0)))
  }

  function RawScores(attempts: seq<Attempt>): (xs: seq<Number>)
    ensures |xs| == |attempts| && forall i :: 0 <= i < |xs| ==> xs[i] == RawScore(attempts[i])
  {
    seq(|attempts|, i requires 0 <= i < |attempts| => RawScore(attempts[i]))
  }

  /** The average score: the stored one if valid, else the rounded mean of the raw scores. */
  function AvgScore(s: Stats): (r: Number)
    ensures IsFinite(ToNumber(s.avgScore)) ==> r == ToNumber(s.avgScore)
    ensures r.Finite? ==> r.value == r.value.Floor as real || IsFinite(ToNumber(s.avgScore))
  {
    SafeNumber(s.avgScore, RoundedMean(RawScores(s.attempts)))
  }

  /**
   * Without a valid stored average: no attempts give 0, and numeric scores
   * give the rounded mean; one unreadable score makes the figure NaN.
   */
  lemma AvgScoreFallback(s: Stats)
    requires !IsFinite(ToNumber(s.avgScore))
    ensures |s.attempts| == 0 ==> AvgScore(s) == Finite(0.0)
    ensures |s.attempts| > 0 && (forall i :: 0 <= i < |s.attempts| ==> RawScore(s.attempts[i]).Finite?) ==>
              AvgScore(s) == Finite(Round(RealSum(RawScores(s.attempts)) / |s.attempts| as real) as real)
    ensures (exists i :: 0 <= i < |s.attempts| && RawScore(s.attempts[i]).NaN?) ==> AvgScore(s) == NaN
  {
    SumOfFinite(RawScores(s.attempts));
  }

  /** One attempt's percentage for the accuracy figure and the topic table (rounded). */
  function AttemptPercentage(a: Attempt): Number {
    var total := TotalOrZero(a);
    if Gt(total, 0.0) then
      var score := ToNumber(ValueOrZero(a.score));
      (if score.Finite? then RoundNumber(Finite(score.value / total.value * 100.0)) else NaN)
    else StoredPercentage(a)
  }

  function AttemptPercentages(attempts: seq<Attempt>): (xs: seq<Number>)
    ensures |xs| == |attempts| && forall i :: 0 <= i < |xs| ==> xs[i] == AttemptPercentage(attempts[i])
  {
    seq(|attempts|, i requires 0 <= i < |attempts| => AttemptPercentage(attempts[i]))
  }

  /** The accuracy: the stored one if valid, else the rounded mean of the attempt percentages. */
  function Accuracy(s: Stats): (r: Number)
    ensures IsFinite(ToNumber(s.accuracy)) ==> r == ToNumber(s.accuracy)
    ensures r.Finite? ==> r.value == r.value.Floor as real || IsFinite(ToNumber(s.accuracy))
  {
    SafeNumber(s.accuracy, RoundedMean(AttemptPercentages(s.attempts)))
  }

  /** Without a valid stored accuracy, the figure is 0 for no attempts, else the rounded mean. */
  lemma AccuracyFallback(s: Stats)
    requires !IsFinite(ToNumber(s.accuracy))
    ensures |s.attempts| == 0 ==> Accuracy(s) == Finite(0.0)
    ensures |s.attempts| > 0 && (forall i :: 0 <= i < |s.attempts| ==> AttemptPercentage(s.attempts[i]).Finite?) ==>
              Accuracy(s) == Finite(Round(RealSum(AttemptPercentages(s.attempts)) / |s.attempts| as real) as real)
  {
    SumOfFinite(AttemptPercentages(s.attempts));
  }

  /** `xs.reduce((mx, x) => Math.max(mx, x), 0)`. */
  function MaxFromZero(xs: seq<Number>): Number
    decreases |xs|
  {
    if |xs| == 0 then Finite(0.0) else Max(MaxFromZero(xs[..|xs| - 1]), xs[|xs| - 1])
  }

  /**
   * The running maximum is a number exactly when every term is; it is then
   * at least 0 and at least every term, and it is 0 or one of the terms.
   */
  lemma {:induction false} MaxFromZeroBounds(xs: seq<Number>)
    ensures MaxFromZero(xs).Finite? <==> forall i :: 0 <= i < |xs| ==> xs[i].Finite?
    ensures MaxFromZero(xs).Finite? ==>
              && MaxFromZero(xs).value >= 0.0
              && (forall i :: 0 <= i < |xs| ==> MaxFromZero(xs).value >= xs[i].value)
              && (MaxFromZero(xs).value == 0.0 || exists i :: 0 <= i < |xs| && MaxFromZero(xs) == xs[i])
    decreases |xs|
  {
    if |xs| > 0 {
      var init := xs[..|xs| - 1];
      MaxFromZeroBounds(init);
      if MaxFromZero(xs).Finite? {
        if MaxFromZero(xs).value != 0.0 && MaxFromZero(xs) != xs[|xs| - 1] {
          var i :| 0 <= i < |init| && MaxFromZero(init) == init[i];
          assert MaxFromZero(xs) == xs[i];
        }
      }
    }
  }

  /** The highest raw score, from 0. */
  function Highest(s: Stats): (r: Number)
    ensures r.Finite? ==> r.value >= 0.0
    ensures r.Finite? <==> forall i :: 0 <= i < |s.attempts| ==> RawScore(s.attempts[i]).Finite?
  {
    MaxFromZeroBounds(RawScores(s.attempts));
    MaxFromZero(RawScores(s.attempts))
  }

  /** With numeric scores, the highest is at least 0 and at least every attempt's score. */
  lemma HighestBounds(s: Stats)
    requires forall i :: 0 <= i < |s.attempts| ==> RawScore(s.attempts[i]).Finite?
    ensures Highest(s).Finite? && Highest(s).value >= 0.0
    ensures forall i :: 0 <= i < |s.attempts| ==> Highest(s).value >= RawScore(s.attempts[i]).value
  {
    MaxFromZeroBounds(RawScores(s.attempts));
  }

  /** What one attempt adds to its topic's `totalPct`: its rounded percentage, 0 when NaN. */
  function TopicContribution(a: Attempt): real {
    var pct := AttemptPercentage(a);
    if IsFinite(pct) then pct.value else 0.0
  }

  /** The attempts as (topic, contribution) pairs, in order. */
  function TopicItems(attempts: seq<Attempt>): seq<(string, real)> {
    Keyed(attempts, TopicLabel, TopicContribution)
  }

  datatype TopicSummary = TopicSummary(topic: string, attempts: nat, avg: int)

  function SummariesOf(g: Grouped): (rows: seq<TopicSummary>)
    requires forall k :: k in g.keys ==> k in g.tallies
    ensures |rows| == |g.keys|
    ensures forall i :: 0 <= i < |rows| ==>
              rows[i] == TopicSummary(g.keys[i], g.tallies[g.keys[i]].count, Average(g.tallies[g.keys[i]]))
  {
    seq(|g.keys|, i requires 0 <= i < |g.keys| =>
      TopicSummary(g.keys[i], g.tallies[g.keys[i]].count, Average(g.tallies[g.keys[i]])))
  }

  /** The `topicMap` loop followed by `Object.keys(topicMap).map(...)`. */
  method TopicRows(attempts: seq<Attempt>) returns (rows: seq<TopicSummary>)
    ensures WellFormed(GroupAll(TopicItems(attempts)))
    ensures rows == SummariesOf(GroupAll(TopicItems(attempts)))
  {
    GroupAllWellFormed(TopicItems(attempts));
    var g := Group(TopicItems(attempts));
    rows := SummariesOf(g);
  }

  /** The sum of the rows' attempt counts. */
  function SumAttempts(rows: seq<TopicSummary>): nat {
    if |rows| == 0 then 0 else rows[0].attempts + SumAttempts(rows[1..])
  }

  lemma {:induction false} SumAttemptsIsSumCounts(keys: seq<string>, g: Grouped)
    requires forall k :: k in g.keys ==> k in g.tallies
    requires forall k :: k in keys ==> k in g.tallies
    ensures SumAttempts(SummariesOf(Grouped(keys, g.tallies))) == SumCounts(keys, g.tallies)
    decreases |keys|
  {
    if |keys| > 0 {
      var rows := SummariesOf(Grouped(keys, g.tallies));
      assert rows[1..] == SummariesOf(Grouped(keys[1..], g.tallies));
      SumAttemptsIsSumCounts(keys[1..], g);
    }
  }

  /** The rows' attempt counts add up to the number of attempts. */
  lemma TopicCountsCoverAttempts(attempts: seq<Attempt>)
    ensures WellFormed(GroupAll(TopicItems(attempts)))
    ensures SumAttempts(SummariesOf(GroupAll(TopicItems(attempts)))) == |attempts|
  {
    var g := GroupAll(TopicItems(attempts));
    GroupAllCountsSum(TopicItems(attempts));
    SumAttemptsIsSumCounts(g.keys, g);
  }

  /** `topicRows.filter(r => r.avg >= 75).map(r => r.topic)`. */
  function Strengths(rows: seq<TopicSummary>): (r: seq<string>)
    ensures forall t :: t in r <==> exists i :: 0 <= i < |rows| && rows[i].topic == t && rows[i].avg >= 75
  {
    if |rows| == 0 then []
    else (if rows[0].avg >= 75 then [rows[0].topic] else []) + Strengths(rows[1..])
  }

  /** `topicRows.filter(r => r.avg < 50).map(r => r.topic)`. */
  function Weaknesses(rows: seq<TopicSummary>): (r: seq<string>)
    ensures forall t :: t in r <==> exists i :: 0 <= i < |rows| && rows[i].topic == t && rows[i].avg < 50
  {
    if |rows| == 0 then []
    else (if rows[0].avg < 50 then [rows[0].topic] else []) + Weaknesses(rows[1..])
  }

  /**
   * With one row per topic, no topic is both a strength and a weakness, and
   * a topic averaging in [50, 75) is neither.
   */
  lemma StrengthsWeaknessesDisjoint(rows: seq<TopicSummary>, t: string)
    requires forall i, j :: 0 <= i < j < |rows| ==> rows[i].topic != rows[j].topic
    ensures !(t in Strengths(rows) && t in Weaknesses(rows))
    ensures forall i :: 0 <= i < |rows| && rows[i].topic == t && 50 <= rows[i].avg < 75 ==>
              t !in Strengths(rows) && t !in Weaknesses(rows)
  {
  }

  /** The row badge: 'Strong' from 75, 'Weak' below 50, else 'Average'. */
  function RowBadge(avg: int): string {
    if avg >= 75 then "Strong" else if avg < 50 then "Weak" else "Average"
  }

  /** A topic is listed as a strength exactly when its badge says Strong, as a weakness exactly when Weak. */
  lemma RowBadgeMatchesLists(rows: seq<TopicSummary>, i: int)
    requires forall a, b :: 0 <= a < b < |rows| ==> rows[a].topic != rows[b].topic
    requires 0 <= i < |rows|
    ensures rows[i].topic in Strengths(rows) <==> RowBadge(rows[i].avg) == "Strong"
    ensures rows[i].topic in Weaknesses(rows) <==> RowBadge(rows[i].avg) == "Weak"
  {
    var t := rows[i].topic;
    if t in Strengths(rows) {
      var j :| 0 <= j < |rows| && rows[j].topic == t && rows[j].avg >= 75;
      assert j == i;
    }
    if t in Weaknesses(rows) {
      var j :| 0 <= j < |rows| && rows[j].topic == t && rows[j].avg < 50;
      assert j == i;
    }
  }

  /** The current level shown for an accuracy. */
  function Level(accuracy: Number): (l: string)
    ensures l in {"Beginner", "Medium", "Advanced", "Expert"}
    ensures l == "Beginner" <==> Lt(accuracy, 50.0)
  {
    if Lt(accuracy, 50.0) then "Beginner"
    else if Le(accuracy, 75.0) then "Medium"
    else if Lt(accuracy, 90.0) then "Advanced"
    else "Expert"
  }

  /** The overall status shown for an accuracy. */
  function Status(accuracy: Number): (r: string)
    ensures r == "Passed" || r == "Needs Improvement"
    ensures r == "Passed" <==> Ge(accuracy, 50.0)
  {
    if Ge(accuracy, 50.0) then "Passed" else "Needs Improvement"
  }

  /**
   * Level and status bands; on a number, Beginner is exactly Needs
   * Improvement. A NaN accuracy is shown as Expert yet Needs Improvement.
   */
  lemma LevelAndStatusBands(x: real)
    ensures Level(Finite(x)) == "Beginner" <==> x < 50.0
    ensures Level(Finite(x)) == "Medium" <==> 50.0 <= x <= 75.0
    ensures Level(Finite(x)) == "Advanced" <==> 75.0 < x < 90.0
    ensures Level(Finite(x)) == "Expert" <==> x >= 90.0
    ensures Status(Finite(x)) == "Passed" <==> x >= 50.0
    ensures Level(Finite(x)) == "Beginner" <==> Status(Finite(x)) == "Needs Improvement"
    ensures Level(NaN) == "Expert" && Status(NaN) == "Needs Improvement"
  {
  }
}
