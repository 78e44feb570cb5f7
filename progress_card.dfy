/** The colours of a topic's progress card, chosen by the quiz score. */
module ProgressCard {
  import opened JsNumber

  /** `getBackgroundColor`. */
  function BackgroundColor(score: Number): (c: string)
    ensures c in {"#d4edda", "#fff3cd", "#f8d7da"}
    ensures c == "#d4edda" <==> Ge(score, 85.0)
  {
    if Ge(score, 85.0) then "#d4edda"
    else if Ge(score, 65.0) then "#fff3cd"
    else "#f8d7da"
  }

  /** `getTextColor`. */
  function TextColor(score: Number): (c: string)
    ensures c in {"#155724", "#856404", "#721c24"}
    ensures c == "#155724" <==> Ge(score, 85.0)
  {
    if Ge(score, 85.0) then "#155724"
    else if Ge(score, 65.0) then "#856404"
    else "#721c24"
  }

  /** Green from 85, yellow on [65, 85), red below 65; a NaN score is red. */
  lemma BackgroundBands(x: real)
    ensures BackgroundColor(Finite(x)) == "#d4edda" <==> x >= 85.0
    ensures BackgroundColor(Finite(x)) == "#fff3cd" <==> 65.0 <= x < 85.0
    ensures BackgroundColor(Finite(x)) == "#f8d7da" <==> x < 65.0
    ensures BackgroundColor(NaN) == "#f8d7da"
  {
  }

  /**
   * The text colour uses the same thresholds: each background is paired with
   * exactly one text colour, for every score.
   */
  lemma TextMatchesBackground(score: Number)
    ensures BackgroundColor(score) == "#d4edda" <==> TextColor(score) == "#155724"
    ensures BackgroundColor(score) == "#fff3cd" <==> TextColor(score) == "#856404"
    ensures BackgroundColor(score) == "#f8d7da" <==> TextColor(score) == "#721c24"
  {
  }
}
