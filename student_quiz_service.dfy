/**
 * Starting and submitting a quiz assigned to a student. Both refuse a quiz
 * that is not assigned; starting marks the assignment in progress and hides
 * the answers; submitting scores the answers, stores an attempt and marks
 * the assignment submitted.
 */
module StudentQuizService {
  import opened Wrappers
  import opened Repositories
  import opened JsNumber

  const NotAssigned := "Quiz not assigned to this student"
  const StudentNotFound := "Student not found"

  /** A question as sent to the student: no answer field. */
  datatype QuestionView = QuestionView(
    id: int, text: string,
    optionA: Option<string>, optionB: Option<string>, optionC: Option<string>, optionD: Option<string>)

  datatype StartResponse = StartResponse(quizId: int, questions: seq<QuestionView>)

  datatype SubmitResponse = SubmitResponse(score: int, totalQuestions: int, accuracy: int, attemptId: int)

  function ViewOf(q: QuestionRow): QuestionView {
    QuestionView(q.id, q.text, q.optionA, q.optionB, q.optionC, q.optionD)
  }

  function Views(qs: seq<QuestionRow>): (vs: seq<QuestionView>)
    ensures |vs| == |qs|
    ensures forall i :: 0 <= i < |qs| ==>
              vs[i].id == qs[i].id && vs[i].text == qs[i].text &&
              vs[i].optionA == qs[i].optionA && vs[i].optionB == qs[i].optionB &&
              vs[i].optionC == qs[i].optionC && vs[i].optionD == qs[i].optionD
  {
    seq(|qs|, i requires 0 <= i < |qs| => ViewOf(qs[i]))
  }

  /** The assignments after setting the status of row `i`, if any. */
  function SetStatus(rows: seq<AssignmentRow>, i: Option<nat>, s: AssignmentStatus): (r: seq<AssignmentRow>)
    requires i.Some? ==> i.value < |rows|
    ensures |r| == |rows|
    ensures forall j :: 0 <= j < |rows| ==>
              r[j] == if i == Some(j) then rows[j].(status := s) else rows[j]
  {
    if i.Some? then rows[i.value := rows[i.value].(status := s)] else rows
  }

  /** `startAssignedQuiz`. */
  method StartAssignedQuiz(db: Database, studentId: int, quizId: int) returns (r: Result<StartResponse, string>)
    modifies db
    ensures !IsAssigned(old(db.assignments), quizId, studentId) ==> r == Err(NotAssigned) && unchanged(db)
    ensures IsAssigned(old(db.assignments), quizId, studentId) ==>
              && r == Ok(StartResponse(quizId, Views(QuestionsOf(db.questions, quizId))))
              && db.assignments == SetStatus(old(db.assignments), FirstAssignment(old(db.assignments), studentId, quizId), IN_PROGRESS)
              && FirstAssignment(old(db.assignments), studentId, quizId).Some?
    ensures db.questions == old(db.questions) && db.attempts == old(db.attempts) && db.quizzes == old(db.quizzes)
    ensures db.students == old(db.students) && db.topics == old(db.topics) && db.nextId == old(db.nextId)
  {
    if !IsAssigned(db.assignments, quizId, studentId) {
      return Err(NotAssigned);
    }
    var matched := FirstAssignment(db.assignments, studentId, quizId);
    db.assignments := db.assignments[matched.value := db.assignments[matched.value].(status := IN_PROGRESS)];
    r := Ok(StartResponse(quizId, Views(QuestionsOf(db.questions, quizId))));
  }

  /** Whether the selection for `q` is its correct answer; no selection and no answer never match. */
  predicate Answered(q: QuestionRow, answers: map<int, string>) {
    q.id in answers && q.correctAnswer == Some(answers[q.id])
  }

  /** The number of questions whose selection equals the stored answer. */
  function CountCorrect(qs: seq<QuestionRow>, answers: map<int, string>): (n: nat)
    ensures n <= |qs|
    ensures n == 0 <==> forall i :: 0 <= i < |qs| ==> !Answered(qs[i], answers)
    decreases |qs|
  {
    if |qs| == 0 then 0
    else CountCorrect(qs[..|qs| - 1], answers) + (if Answered(qs[|qs| - 1], answers) then 1 else 0)
  }

  /**
   * Taking back a selection never raises the score: an unanswered question
   * contributes nothing.
   */
  lemma {:induction false} UnansweredNeverScores(qs: seq<QuestionRow>, answers: map<int, string>, id: int)
    ensures CountCorrect(qs, answers - {id}) <= CountCorrect(qs, answers)
    ensures (forall i :: 0 <= i < |qs| ==> qs[i].id == id) ==> CountCorrect(qs, answers - {id}) == 0
    decreases |qs|
  {
    if |qs| > 0 { UnansweredNeverScores(qs[..|qs| - 1], answers, id); }
  }

  /** Selecting the stored answer of every question scores every question. */
  lemma {:induction false} AllCorrectScoresAll(qs: seq<QuestionRow>, answers: map<int, string>)
    requires forall i :: 0 <= i < |qs| ==> Answered(qs[i], answers)
    ensures CountCorrect(qs, answers) == |qs|
    decreases |qs|
  {
    if |qs| > 0 { AllCorrectScoresAll(qs[..|qs| - 1], answers); }
  }

  /** `total == 0 ? 0 : (score * 100) / total` on non-negative integers. */
  function Accuracy(score: int, total: int): (a: int)
    requires total >= 0 && score >= 0
    ensures total == 0 ==> a == 0
    ensures total > 0 ==> a * total <= score * 100 < a * total + total
  {
    if total == 0 then 0 else (score * 100) / total
  }

  /** The accuracy lies in [0, 100], and is 100 exactly when every question scored. */
  lemma AccuracyRange(score: int, total: int)
    requires 0 <= score <= total
    ensures 0 <= Accuracy(score, total) <= 100
    ensures total > 0 ==> (Accuracy(score, total) == 100 <==> score == total)
  {
    if total > 0 {
      var n := score * 100;
      var a := n / total;
      assert n == total * a + n % total;
      if score == total {
        DivBetween(n, total, 100);
      } else if a >= 100 {
        MulLe(100, a, total);
      }
    }
  }

  /** The scoring loop: one point per question whose selection equals its stored answer. */
  method Score(questions: seq<QuestionRow>, answers: map<int, string>) returns (score: int)
    ensures score == CountCorrect(questions, answers)
  {
    score := 0;
    for i := 0 to |questions|
      invariant score == CountCorrect(questions[..i], answers)
    {
      var q := questions[i];
      if q.id in answers && q.correctAnswer == Some(answers[q.id]) {
        score := score + 1;
      }
      assert questions[..i + 1][..i] == questions[..i];
    }
    assert questions[..|questions|] == questions;
  }

  /** `submitAssignedQuiz`; `now` is the clock reading stored as the attempt time. */
  method SubmitAssignedQuiz(db: Database, studentId: int, quizId: int, answers: map<int, string>, now: int)
    returns (r: Result<SubmitResponse, string>)
    modifies db
    ensures !IsAssigned(old(db.assignments), quizId, studentId) ==> r == Err(NotAssigned) && unchanged(db)
    ensures IsAssigned(old(db.assignments), quizId, studentId) && studentId !in old(db.students) ==>
              r == Err(StudentNotFound) && unchanged(db)
    ensures r.Ok? ==>
              var qs := QuestionsOf(old(db.questions), quizId);
              var score := CountCorrect(qs, answers);
              && IsAssigned(old(db.assignments), quizId, studentId) && studentId in old(db.students)
              && r.value == SubmitResponse(score, |qs|, Accuracy(score, |qs|), old(db.nextId))
              && db.attempts == old(db.attempts) + [AttemptRow(old(db.nextId), studentId, quizId, score, |qs|, now)]
              && db.assignments == SetStatus(old(db.assignments), FirstAssignment(old(db.assignments), studentId, quizId), SUBMITTED)
              && db.nextId == old(db.nextId) + 1
    ensures r.Ok? <==> IsAssigned(old(db.assignments), quizId, studentId) && studentId in old(db.students)
    ensures db.questions == old(db.questions) && db.quizzes == old(db.quizzes)
    ensures db.students == old(db.students) && db.topics == old(db.topics)
  {
    if !IsAssigned(db.assignments, quizId, studentId) {
      return Err(NotAssigned);
    }
    var questions := QuestionsOf(db.questions, quizId);
    var total := |questions|;
    var score := Score(questions, answers);
    if studentId !in db.students {
      return Err(StudentNotFound);
    }
    var attemptId := db.nextId;
    db.attempts := db.attempts + [AttemptRow(attemptId, studentId, quizId, score, total, now)];
    db.nextId := db.nextId + 1;
    var matched := FirstAssignment(db.assignments, studentId, quizId);
    if matched.Some? {
      db.assignments := db.assignments[matched.value := db.assignments[matched.value].(status := SUBMITTED)];
    }
    r := Ok(SubmitResponse(score, total, if total == 0 then 0 else (score * 100) / total, attemptId));
  }

  /**
   * The figures of a successful submission agree: the response and the
   * stored attempt carry the same score and total, the score is at most the
   * total and the accuracy lies in [0, 100].
   */
  lemma SubmissionFiguresAgree(qs: seq<QuestionRow>, answers: map<int, string>)
    ensures 0 <= CountCorrect(qs, answers) <= |qs|
    ensures 0 <= Accuracy(CountCorrect(qs, answers), |qs|) <= 100
  {
    AccuracyRange(CountCorrect(qs, answers), |qs|);
  }

  /** Once the assignment check passes, a matching assignment always exists to be marked. */
  lemma AssignedHasFirstMatch(rows: seq<AssignmentRow>, studentId: int, quizId: int)
    requires IsAssigned(rows, quizId, studentId)
    ensures FirstAssignment(rows, studentId, quizId).Some?
    ensures forall j :: 0 <= j < |rows| && j != FirstAssignment(rows, studentId, quizId).value ==>
              SetStatus(rows, FirstAssignment(rows, studentId, quizId), SUBMITTED)[j] == rows[j]
  {
  }
}
