/**
 * The quiz-taking screen: a cursor over the quiz's questions that stays in
 * range, a map from question id to the chosen option letter, the rule that
 * enables Submit, the submission it sends, and the `m:ss` timer text.
 */
module QuizTaker {
  import opened JsText

  /** `a % b` in JavaScript for `b > 0`: the remainder takes the dividend's sign. */
  function JsRem(a: int, b: int): (r: int)
    requires b > 0
    ensures a >= 0 ==> r == a % b
    ensures a < 0 ==> -b < r <= 0
  {
    if a >= 0 then a % b else -((-a) % b)
  }

  /** `formatTime`: whole minutes (rounded down), a colon, and the seconds padded to two characters. */
  function FormatTime(seconds: int): (t: string)
    ensures seconds >= 0 ==> |t| >= 4 && t[|t| - 3] == ':' && forall i :: 0 <= i < |t| && i != |t| - 3 ==> '0' <= t[i] <= '9'
  {
    var mins := seconds / 60;
    var secs := JsRem(seconds, 60);
    if seconds >= 0 then TwoDigits(secs); IntToString(mins) + ":" + PadStart2(IntToString(secs))
    else IntToString(mins) + ":" + PadStart2(IntToString(secs))
  }

  /** The number a string of decimal digits denotes. */
  function DecimalValue(digits: string): int
    decreases |digits|
  {
    if |digits| == 0 then 0
    else 10 * DecimalValue(digits[..|digits| - 1]) + (digits[|digits| - 1] as int - '0' as int)
  }

  /** Writing a number in decimal and reading it back gives the number. */
  lemma {:induction false} NatToStringRoundTrip(n: nat)
    ensures DecimalValue(NatToString(n)) == n
  {
    if n >= 10 {
      NatToStringRoundTrip(n / 10);
      var s := NatToString(n);
      assert s[..|s| - 1] == NatToString(n / 10);
    }
  }

  /** Seconds past the minute, padded, are exactly two digits. */
  lemma TwoDigits(secs: nat)
    requires secs < 60
    ensures PadStart2(NatToString(secs)) == [DigitChar(secs / 10), DigitChar(secs % 10)]
    ensures DecimalValue([DigitChar(secs / 10), DigitChar(secs % 10)]) == secs
  {
    if secs >= 10 {
      assert NatToString(secs) == NatToString(secs / 10) + [DigitChar(secs % 10)];
    }
    var two := [DigitChar(secs / 10), DigitChar(secs % 10)];
    assert two[..1] == [DigitChar(secs / 10)];
    assert DecimalValue(two[..1]) == secs / 10 by {
      assert two[..1][..0] == [];
    }
  }

  /**
   * For a non-negative count of seconds the text is the minutes in decimal,
   * a colon, and exactly two digits that read back as the seconds past the
   * minute.
   */
  lemma FormatTimeParts(seconds: nat)
    ensures FormatTime(seconds) == NatToString(seconds / 60) + ":" + [DigitChar(seconds % 60 / 10), DigitChar(seconds % 60 % 10)]
    ensures DecimalValue(FormatTime(seconds)[|FormatTime(seconds)| - 2..]) == seconds % 60
  {
    var secs := seconds % 60;
    TwoDigits(secs);
    var two := [DigitChar(secs / 10), DigitChar(secs % 10)];
    var t := FormatTime(seconds);
    assert t == NatToString(seconds / 60) + ":" + two;
    assert t[|t| - 2..] == two;
  }

  /** What `handleSubmit` hands to `onSubmit`. */
  datatype Submission = Submission(quizId: int, answers: map<int, string>, timeSpent: int)

  class QuizSession {
    const quizId: int
    const questionIds: seq<int>
    const startTime: int
    var currentQuestionIndex: int
    var answers: map<int, string>
    var timeRemaining: int

    /** The cursor is on a question (or at 0 for a quiz without questions). */
    predicate Valid()
      reads this
    {
      0 <= currentQuestionIndex && (currentQuestionIndex == 0 || currentQuestionIndex < |questionIds|)
    }

    /** Every recorded answer belongs to one of the quiz's questions. */
    predicate AnswersForQuestions()
      reads this
    {
      forall q :: q in answers ==> q in questionIds
    }

    /** Opening a quiz: first question, no answers, `timeLimit` minutes on the clock; `now` is the clock in ms. */
    constructor(quizId: int, questionIds: seq<int>, timeLimit: int, now: int)
      ensures this.quizId == quizId && this.questionIds == questionIds && startTime == now
      ensures currentQuestionIndex == 0 && answers == map[] && timeRemaining == timeLimit * 60
      ensures Valid() && AnswersForQuestions()
    {
      this.quizId := quizId;
      this.questionIds := questionIds;
      startTime := now;
      currentQuestionIndex := 0;
      answers := map[];
      timeRemaining := timeLimit * 60;
    }

    /** `handleAnswerSelect`: records (or overwrites) the answer to one question and touches no other. */
    method SelectAnswer(questionId: int, answer: string)
      modifies this
      ensures answers == old(answers)[questionId := answer]
      ensures questionId in answers && answers[questionId] == answer
      ensures forall q :: q != questionId ==> (q in answers <==> q in old(answers))
      ensures forall q :: q != questionId && q in answers ==> answers[q] == old(answers)[q]
      ensures currentQuestionIndex == old(currentQuestionIndex) && timeRemaining == old(timeRemaining)
    {
      answers := answers[questionId := answer];
    }

    /** Clicking an option of the question on screen. */
    method ChooseOption(option: string)
      requires Valid() && AnswersForQuestions() && |questionIds| > 0
      modifies this
      ensures currentQuestionIndex == old(currentQuestionIndex) && timeRemaining == old(timeRemaining)
      ensures answers == old(answers)[questionIds[currentQuestionIndex] := option]
      ensures Valid() && AnswersForQuestions()
    {
      SelectAnswer(questionIds[currentQuestionIndex], option);
    }

    /** `handleNext`: moves forward unless on the last question. */
    method Next()
      requires Valid()
      modifies this
      ensures currentQuestionIndex == if old(currentQuestionIndex) < |questionIds| - 1 then old(currentQuestionIndex) + 1
                                      else old(currentQuestionIndex)
      ensures Valid() && (|questionIds| > 0 ==> currentQuestionIndex <= |questionIds| - 1)
      ensures answers == old(answers) && timeRemaining == old(timeRemaining)
    {
      if currentQuestionIndex < |questionIds| - 1 {
        currentQuestionIndex := currentQuestionIndex + 1;
      }
    }

    /** `handlePrevious`: moves back unless on the first question. */
    method Previous()
      requires Valid()
      modifies this
      ensures currentQuestionIndex == if old(currentQuestionIndex) > 0 then old(currentQuestionIndex) - 1 else 0
      ensures Valid() && currentQuestionIndex >= 0
      ensures answers == old(answers) && timeRemaining == old(timeRemaining)
    {
      if currentQuestionIndex > 0 {
        currentQuestionIndex := currentQuestionIndex - 1;
      }
    }

    /** The Submit button is shown instead of Next on the last question. */
    function SubmitShown(): bool
      reads this
    {
      !(currentQuestionIndex < |questionIds| - 1)
    }

    /** The Submit button is enabled when as many questions are answered as the quiz has. */
    function SubmitEnabled(): (b: bool)
      reads this
      ensures AnswersForQuestions() && (forall i, j :: 0 <= i < j < |questionIds| ==> questionIds[i] != questionIds[j]) ==>
                (b <==> forall q :: q in questionIds ==> q in answers)
    {
      // Both branches compute the same count test; the guard only lets the
      // first one call the lemma that proves the ensures.
      if AnswersForQuestions() && (forall i, j :: 0 <= i < j < |questionIds| ==> questionIds[i] != questionIds[j]) then
        SubmitEnabledIffAllAnswered(answers, questionIds);
        |answers.Keys| == |questionIds|
      else |answers.Keys| == |questionIds|
    }

    /** `handleSubmit`'s submission: the quiz id, the answers as they are, and whole seconds since opening. */
    function SubmissionAt(now: int): (s: Submission)
      reads this
      ensures s.quizId == quizId && s.answers == answers
      ensures s.timeSpent * 1000 <= now - startTime < s.timeSpent * 1000 + 1000
    {
      Submission(quizId, answers, (now - startTime) / 1000)
    }
  }

  /** Distinct elements of a sequence make a set of the same size. */
  lemma {:induction false} DistinctCard(qs: seq<int>)
    requires forall i, j :: 0 <= i < j < |qs| ==> qs[i] != qs[j]
    ensures |set q | q in qs| == |qs|
    decreases |qs|
  {
    if |qs| > 0 {
      var init := qs[..|qs| - 1];
      DistinctCard(init);
      assert (set q | q in qs) == (set q | q in init) + {qs[|qs| - 1]};
      assert qs[|qs| - 1] !in (set q | q in init);
    }
  }

  /**
   * With distinct question ids and answers only for the quiz's questions,
   * Submit is enabled exactly when every question has an answer.
   */
  lemma SubmitEnabledIffAllAnswered(answers: map<int, string>, questionIds: seq<int>)
    requires forall i, j :: 0 <= i < j < |questionIds| ==> questionIds[i] != questionIds[j]
    requires forall q :: q in answers ==> q in questionIds
    ensures |answers.Keys| == |questionIds| <==> forall q :: q in questionIds ==> q in answers
  {
    var ids := set q | q in questionIds;
    DistinctCard(questionIds);
    assert forall q | q in answers.Keys :: q in ids;
    if |answers.Keys| == |questionIds| {
      assert |ids - answers.Keys| == 0 by {
        assert ids == answers.Keys + (ids - answers.Keys);
      }
      assert forall q :: q in questionIds ==> q in ids;
    }
    if forall q :: q in questionIds ==> q in answers {
      assert answers.Keys == ids;
    }
  }
}
