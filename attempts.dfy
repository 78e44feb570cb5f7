/**
 * A quiz attempt as the two performance pages read it from the statistics
 * endpoint, and the field readings both pages share.
 */
module Attempts {
  import opened Wrappers
  import opened JsNumber

  /**
   * Numeric fields are raw JSON values; the three title fields are
   * `a.quiz?.topic?.title`, `a.topicName` and `a.quiz?.title`; the three date
   * fields are timestamps, `None` when absent or empty.
   */
  datatype Attempt = Attempt(
    score: Value,
    totalQuestions: Value,
    total: Value,
    questionCount: Value,
    percentage: Value,
    accuracy: Value,
    topicTitle: Option<string>,
    topicName: Option<string>,
    quizTitle: Option<string>,
    attemptedAt: Option<int>,
    date: Option<int>,
    createdAt: Option<int>)

  /** `safeNumber(n, fallback)`: `Number(n)` if it is finite, else the fallback. */
  function SafeNumber(v: Value, fallback: Number): (r: Number)
    ensures IsFinite(ToNumber(v)) ==> r == ToNumber(v)
    ensures !IsFinite(ToNumber(v)) ==> r == fallback
  {
    var n := ToNumber(v);
    if IsFinite(n) then n else fallback
  }

  predicate Truthy(s: Option<string>) { s.Some? && s.value != "" }

  /** `a.quiz?.topic?.title || a.topicName || a.quiz?.title || 'General'`. */
  function TopicLabel(a: Attempt): (r: string)
    ensures r != ""
    ensures r == "General" || Some(r) == a.topicTitle || Some(r) == a.topicName || Some(r) == a.quizTitle
    ensures Truthy(a.topicTitle) ==> r == a.topicTitle.value
  {
    if Truthy(a.topicTitle) then a.topicTitle.value
    else if Truthy(a.topicName) then a.topicName.value
    else if Truthy(a.quizTitle) then a.quizTitle.value
    else "General"
  }

  /** `Number(a.totalQuestions ?? a.total ?? 0) || 0`: never NaN. */
  function TotalOrZero(a: Attempt): (r: Number)
    ensures r.Finite?
    ensures a.totalQuestions.Num? ==> r == Finite(a.totalQuestions.n)
  {
    OrZero(ToNumber(Coalesce(a.totalQuestions, Coalesce(a.total, Num(0.0)))))
  }

  /** `Number(a.percentage ?? a.accuracy ?? 0)`: the stored percentage when there is no total. */
  function StoredPercentage(a: Attempt): Number {
    ToNumber(Coalesce(a.percentage, Coalesce(a.accuracy, Num(0.0))))
  }

  /** The stored percentage is `percentage` if present, else `accuracy`, else 0. */
  lemma StoredPercentageOrder(a: Attempt)
    ensures a.percentage.Num? ==> StoredPercentage(a) == Finite(a.percentage.n)
    ensures a.percentage.IsNullish() && a.accuracy.Num? ==> StoredPercentage(a) == Finite(a.accuracy.n)
    ensures a.percentage.IsNullish() && a.accuracy.IsNullish() ==> StoredPercentage(a) == Finite(0.0)
  {
  }
}
