/**
 * The result screen shown after a quiz: how a raw attempt record becomes a
 * percentage, and the four classifications of that percentage (colour,
 * status label, message, next difficulty). Numbers follow JavaScript:
 * NaN compares false with everything.
 */
module QuizResult {
  import opened Wrappers
  import opened JsNumber

  /**
   * The attempt record as the result screen reads it. `questionResults` is
   * the length of the per-question list when the record has one.
   */
  datatype AttemptResult = AttemptResult(
    totalQuestions: Value,
    total: Value,
    questionResults: Option<nat>,
    correctAnswers: Value,
    correct_answers: Value,
    correct: Value,
    score: Value)

  /** The first field that is neither null nor undefined: what a chain of `??` yields. */
  function FirstPresent(vs: seq<Value>): (r: Option<Value>)
    ensures r.Some? ==> !r.value.IsNullish() && r.value in vs
    ensures r.Some? <==> exists i :: 0 <= i < |vs| && !vs[i].IsNullish()
  {
    if |vs| == 0 then None
    else if !vs[0].IsNullish() then Some(vs[0])
    else FirstPresent(vs[1..])
  }

  /** `Number(totalQuestions ?? total ?? (questionResults ? questionResults.length : 0) ?? 0)`. */
  function TotalQuestions(r: AttemptResult): Number {
    var listed := if r.questionResults.Some? then r.questionResults.value else 0;
    ToNumber(Coalesce(r.totalQuestions, Coalesce(r.total, Num(listed as real))))
  }

  /** `Number(correctAnswers ?? correct_answers ?? correct ?? score ?? NaN)`. */
  function CorrectCount(r: AttemptResult): Number {
    var v := Coalesce(r.correctAnswers, Coalesce(r.correct_answers, Coalesce(r.correct, r.score)));
    if v.IsNullish() then NaN else ToNumber(v)
  }

  /** Unfolds one step of `FirstPresent`. */
  lemma FirstPresentCons(a: Value, rest: seq<Value>)
    ensures FirstPresent([a] + rest) == if a.IsNullish() then FirstPresent(rest) else Some(a)
  {
    assert ([a] + rest)[1..] == rest;
  }

  /** The correct count is read from the first present alias, in the source's order. */
  lemma CorrectCountAliasOrder(r: AttemptResult)
    ensures var first := FirstPresent([r.correctAnswers, r.correct_answers, r.correct, r.score]);
            CorrectCount(r) == if first.None? then NaN else ToNumber(first.value)
  {
    FirstPresentCons(r.score, []);
    FirstPresentCons(r.correct, [r.score]);
    FirstPresentCons(r.correct_answers, [r.correct, r.score]);
    FirstPresentCons(r.correctAnswers, [r.correct_answers, r.correct, r.score]);
  }

  /** The total is read from `totalQuestions`, then `total`, then the list length, else 0. */
  lemma TotalQuestionsAliasOrder(r: AttemptResult)
    ensures var listed := if r.questionResults.Some? then Num(r.questionResults.value as real) else Num(0.0);
            var first := FirstPresent([r.totalQuestions, r.total, listed]);
            first.Some? && TotalQuestions(r) == ToNumber(first.value)
  {
    var listed := if r.questionResults.Some? then Num(r.questionResults.value as real) else Num(0.0);
    FirstPresentCons(listed, []);
    FirstPresentCons(r.total, [listed]);
    FirstPresentCons(r.totalQuestions, [r.total, listed]);
  }

  /** The branch that reads `score` as an already normalised fraction or percentage. */
  predicate UsesScoreFallback(r: AttemptResult) {
    TotalQuestions(r) != Finite(0.0) && CorrectCount(r).NaN? && !r.score.IsNullish()
  }

  /** `Math.round(raw * 100)` for a fraction, `Math.round(raw)` for a percentage, else 0. */
  function FromRawScore(raw: Number): (p: Number)
    ensures p.Finite?
  {
    if raw.NaN? then Finite(0.0)
    else if raw.value <= 1.0 then Finite(Round(raw.value * 100.0) as real)
    else if raw.value <= 100.0 then Finite(Round(raw.value) as real)
    else Finite(0.0)
  }

  /** The displayed percentage, before any check for NaN; never clamped. */
  function Percentage(r: AttemptResult): (p: Number)
    ensures TotalQuestions(r) == Finite(0.0) ==> p == Finite(0.0)
    ensures p.NaN? <==> TotalQuestions(r).NaN? && CorrectCount(r).Finite?
    ensures CorrectCount(r).NaN? && TotalQuestions(r) != Finite(0.0) && !r.score.IsNullish() ==>
              p == FromRawScore(ToNumber(r.score))
  {
    var total := TotalQuestions(r);
    var correct := CorrectCount(r);
    if total == Finite(0.0) then Finite(0.0)
    else if correct.Finite? then
      (if total.Finite? then RoundNumber(Finite(correct.value / total.value * 100.0)) else NaN)
    else if !r.score.IsNullish() then FromRawScore(ToNumber(r.score))
    else Finite(0.0)
  }

  /** A zero total gives 0 whatever else the record holds. */
  lemma ZeroTotalGivesZero(r: AttemptResult)
    requires TotalQuestions(r) == Finite(0.0)
    ensures Percentage(r) == Finite(0.0)
  {
  }

  /**
   * With whole counts `c` and `t > 0` the percentage is `round(100 c / t)`,
   * computed exactly as `(200 c + t) div (2 t)`; it lies in [0, 100] when
   * `0 <= c <= t` and is not clamped otherwise.
   */
  lemma PercentageOfCounts(r: AttemptResult, c: int, t: int)
    requires CorrectCount(r) == Finite(c as real) && TotalQuestions(r) == Finite(t as real) && t > 0
    ensures Percentage(r) == Finite(((200 * c + t) / (2 * t)) as real)
    ensures 0 <= c <= t ==> 0.0 <= Percentage(r).value <= 100.0
  {
    RoundPercentOfCounts(c, t);
    if 0 <= c <= t { PercentOfCountsInRange(c, t); }
  }

  /** Three correct out of two questions shows 150%: nothing clamps the percentage. */
  lemma NoClamping()
    ensures Percentage(AttemptResult(Num(2.0), Undefined, None, Num(3.0), Undefined, Undefined, Undefined))
            == Finite(150.0)
  {
    var r := AttemptResult(Num(2.0), Undefined, None, Num(3.0), Undefined, Undefined, Undefined);
    PercentageOfCounts(r, 3, 2);
  }

  /** The fallback runs only when an alias before `score` holds a value with no numeric reading. */
  lemma ScoreFallbackNeedsJunkAlias(r: AttemptResult)
    ensures UsesScoreFallback(r) <==>
              && TotalQuestions(r) != Finite(0.0)
              && !r.score.IsNullish()
              && var first := FirstPresent([r.correctAnswers, r.correct_answers, r.correct, r.score]);
                 first.Some? && first.value.Junk?
  {
    CorrectCountAliasOrder(r);
    var vs := [r.correctAnswers, r.correct_answers, r.correct, r.score];
    if !r.score.IsNullish() {
      assert !vs[3].IsNullish();
      var first := FirstPresent(vs);
      assert first.Some? && !first.value.IsNullish();
    }
  }

  /** A record whose `score` is numeric and whose other aliases are absent never reaches the fallback. */
  lemma NumericScoreSkipsFallback(r: AttemptResult)
    requires r.score.Num? && r.correctAnswers.IsNullish() && r.correct_answers.IsNullish() && r.correct.IsNullish()
    ensures !UsesScoreFallback(r)
  {
  }

  /** A record carrying only `score: 0.42` shows 0%: with no total, the zero-total rule wins. */
  lemma ScoreOnlyRecordShowsZero()
    ensures Percentage(AttemptResult(Undefined, Undefined, None, Undefined, Undefined, Undefined, Num(0.42)))
            == Finite(0.0)
  {
  }

  /** A junk correct count with a fractional `score` reaches the fallback: 0.42 of ten questions shows 42%. */
  lemma JunkAliasUsesFraction()
    ensures var r := AttemptResult(Num(10.0), Undefined, None, Junk, Undefined, Undefined, Num(0.42));
            UsesScoreFallback(r) && Percentage(r) == Finite(42.0)
  {
    assert Round(0.42 * 100.0) == 42;
  }

  /** `getScoreColor`. */
  function ScoreColor(pct: Number): (c: string)
    ensures c in {"#28a745", "#0d6efd", "#fd7e14", "#dc3545"}
    ensures pct.NaN? ==> c == "#dc3545"
  {
    if Ge(pct, 90.0) then "#28a745"
    else if Ge(pct, 75.0) then "#0d6efd"
    else if Ge(pct, 50.0) then "#fd7e14"
    else "#dc3545"
  }

  /** `getStatusLabel`. */
  function StatusLabel(pct: Number): (l: string)
    ensures l in {"Low / Below Average", "Average", "Good", "Very Good", "Top 1% / Excellent"}
    ensures pct.NaN? ==> l == "Top 1% / Excellent"
  {
    if Lt(pct, 50.0) then "Low / Below Average"
    else if Le(pct, 75.0) then "Average"
    else if Lt(pct, 90.0) then "Good"
    else if Le(pct, 95.0) then "Very Good"
    else "Top 1% / Excellent"
  }

  /** `getScoreMessage`. */
  function ScoreMessage(pct: Number): (m: string)
    ensures m in {"Outstanding — top performer!", "Very strong performance.", "Good work — keep it up.",
                  "Satisfactory — room to improve.", "Needs improvement — practice more."}
    ensures pct.NaN? ==> m == "Needs improvement — practice more."
  {
    if Gt(pct, 95.0) then "Outstanding — top performer!"
    else if Ge(pct, 90.0) then "Very strong performance."
    else if Ge(pct, 76.0) then "Good work — keep it up."
    else if Ge(pct, 50.0) then "Satisfactory — room to improve."
    else "Needs improvement — practice more."
  }

  datatype Difficulty = EASY | MEDIUM | HARD | ADVANCED {
    function Rank(): nat {
      match this
      case EASY => 0
      case MEDIUM => 1
      case HARD => 2
      case ADVANCED => 3
    }
  }

  /** `mapNextDifficulty`. */
  function NextDifficulty(pct: Number): (d: Difficulty)
    ensures pct.NaN? ==> d == ADVANCED
    ensures d == EASY <==> Lt(pct, 50.0)
  {
    if Lt(pct, 50.0) then EASY
    else if Le(pct, 75.0) then MEDIUM
    else if Lt(pct, 90.0) then HARD
    else ADVANCED
  }

  /** The next difficulty partitions the line: below 50, [50, 75], (75, 90), 90 and above. */
  lemma NextDifficultyBands(x: real)
    ensures NextDifficulty(Finite(x)) == EASY <==> x < 50.0
    ensures NextDifficulty(Finite(x)) == MEDIUM <==> 50.0 <= x <= 75.0
    ensures NextDifficulty(Finite(x)) == HARD <==> 75.0 < x < 90.0
    ensures NextDifficulty(Finite(x)) == ADVANCED <==> x >= 90.0
  {
  }

  /** A higher percentage never lowers the next difficulty. */
  lemma NextDifficultyMonotone(x: real, y: real)
    requires x <= y
    ensures NextDifficulty(Finite(x)).Rank() <= NextDifficulty(Finite(y)).Rank()
  {
  }

  /** The status label partitions the line into five bands with these closed and open ends. */
  lemma StatusLabelBands(x: real)
    ensures StatusLabel(Finite(x)) == "Low / Below Average" <==> x < 50.0
    ensures StatusLabel(Finite(x)) == "Average" <==> 50.0 <= x <= 75.0
    ensures StatusLabel(Finite(x)) == "Good" <==> 75.0 < x < 90.0
    ensures StatusLabel(Finite(x)) == "Very Good" <==> 90.0 <= x <= 95.0
    ensures StatusLabel(Finite(x)) == "Top 1% / Excellent" <==> x > 95.0
  {
  }

  /** The colour bands have inclusive lower ends at 90, 75 and 50. */
  lemma ScoreColorBands(x: real)
    ensures ScoreColor(Finite(x)) == "#28a745" <==> x >= 90.0
    ensures ScoreColor(Finite(x)) == "#0d6efd" <==> 75.0 <= x < 90.0
    ensures ScoreColor(Finite(x)) == "#fd7e14" <==> 50.0 <= x < 75.0
    ensures ScoreColor(Finite(x)) == "#dc3545" <==> x < 50.0
  {
  }

  /** 75% is coloured blue but labelled Average; 90% and 95% are Very Good, 96% is Top. */
  lemma BoundaryExamples()
    ensures ScoreColor(Finite(75.0)) == "#0d6efd" && StatusLabel(Finite(75.0)) == "Average"
    ensures StatusLabel(Finite(90.0)) == "Very Good" && StatusLabel(Finite(95.0)) == "Very Good"
    ensures StatusLabel(Finite(96.0)) == "Top 1% / Excellent"
  {
  }

  /** On whole percentages the message bands are >95, 90..95, 76..89, 50..75 and below 50. */
  lemma ScoreMessageBands(p: int)
    ensures ScoreMessage(Finite(p as real)) == "Outstanding — top performer!" <==> p > 95
    ensures ScoreMessage(Finite(p as real)) == "Very strong performance." <==> 90 <= p <= 95
    ensures ScoreMessage(Finite(p as real)) == "Good work — keep it up." <==> 76 <= p <= 89
    ensures ScoreMessage(Finite(p as real)) == "Satisfactory — room to improve." <==> 50 <= p <= 75
    ensures ScoreMessage(Finite(p as real)) == "Needs improvement — practice more." <==> p < 50
  {
  }

  /**
   * A NaN percentage (a junk total with a numeric count) is shown as 0% but
   * falls through every comparison: red, "Top 1% / Excellent", "Needs
   * improvement", and ADVANCED.
   */
  lemma NaNPercentageClassification(r: AttemptResult)
    requires r.totalQuestions.Junk? && r.correctAnswers.Num?
    ensures Percentage(r) == NaN
    ensures DisplayedPercentage(Percentage(r)) == 0.0
    ensures ScoreColor(NaN) == "#dc3545" && StatusLabel(NaN) == "Top 1% / Excellent"
    ensures ScoreMessage(NaN) == "Needs improvement — practice more." && NextDifficulty(NaN) == ADVANCED
  {
  }

  /** What the score circle prints: `Number.isFinite(p) ? p : 0`. */
  function DisplayedPercentage(p: Number): (d: real)
    ensures p.Finite? ==> d == p.value
    ensures p.NaN? ==> d == 0.0
  {
    if IsFinite(p) then p.value else 0.0
  }

  /**
   * The "Incorrect" figure: `totalQuestions - correct` when the total is
   * truthy (the count is always a number, so `correct != null` holds), else a dash.
   */
  function IncorrectShown(r: AttemptResult): (shown: Option<Number>)
    ensures shown.Some? <==> TotalQuestions(r).Finite? && TotalQuestions(r).value != 0.0
  {
    var total := TotalQuestions(r);
    var correct := CorrectCount(r);
    if total.Finite? && total.value != 0.0 then
      Some(if correct.Finite? then Finite(total.value - correct.value) else NaN)
    else None
  }

  /** With a non-zero total, the incorrect figure is total minus correct. */
  lemma IncorrectIsTotalMinusCorrect(r: AttemptResult, c: real, t: real)
    requires TotalQuestions(r) == Finite(t) && t != 0.0 && CorrectCount(r) == Finite(c)
    ensures IncorrectShown(r) == Some(Finite(t - c))
  {
  }

  /** With a zero total the incorrect figure is a dash. */
  lemma IncorrectDashWithoutTotal(r: AttemptResult)
    requires TotalQuestions(r) == Finite(0.0)
    ensures IncorrectShown(r).None?
  {
  }
}
