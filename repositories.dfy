/**
 * The backend's persistent state: the rows of the quiz, question,
 * assignment, attempt and student tables that the quiz services read and
 * write, held in one `Database` object. A save appends a row; generated
 * ids come from one counter.
 */
module Repositories {
  import opened Wrappers

  datatype QuestionType = MCQ | SAQ

  datatype QuizRow = QuizRow(id: int, topicId: int, difficulty: string)

  /** A question row; options and the answer are nullable columns. */
  datatype QuestionRow = QuestionRow(
    id: int,
    quizId: int,
    text: string,
    qtype: QuestionType,
    optionA: Option<string>,
    optionB: Option<string>,
    optionC: Option<string>,
    optionD: Option<string>,
    correctAnswer: Option<string>)

  datatype AssignmentStatus = ASSIGNED | IN_PROGRESS | SUBMITTED

  /** An assignment row; its quiz may be missing (`None`). */
  datatype AssignmentRow = AssignmentRow(quizId: Option<int>, studentId: int, status: AssignmentStatus)

  datatype AttemptRow = AttemptRow(id: int, studentId: int, quizId: int, score: int, totalQuestions: int, attemptedAt: int)

  /** `existsByQuizIdAndStudentId(quizId, studentId)`. */
  predicate IsAssigned(rows: seq<AssignmentRow>, quizId: int, studentId: int) {
    exists i :: 0 <= i < |rows| && rows[i].quizId == Some(quizId) && rows[i].studentId == studentId
  }

  /**
   * The first of the student's assignments whose quiz is `quizId`:
   * `findByStudentId(studentId).stream().filter(...).findFirst()`.
   */
  function FirstAssignment(rows: seq<AssignmentRow>, studentId: int, quizId: int): (r: Option<nat>)
    ensures r.Some? ==> r.value < |rows| && rows[r.value].quizId == Some(quizId) && rows[r.value].studentId == studentId
    ensures r.Some? ==> forall j :: 0 <= j < r.value ==> !(rows[j].quizId == Some(quizId) && rows[j].studentId == studentId)
    ensures r.None? <==> !IsAssigned(rows, quizId, studentId)
  {
    if |rows| == 0 then None
    else if rows[0].quizId == Some(quizId) && rows[0].studentId == studentId then Some(0)
    else
      var rest := FirstAssignment(rows[1..], studentId, quizId);
      if rest.Some? then Some(rest.value + 1) else None
  }

  /** How many assignments link the quiz and the student. */
  function AssignmentCount(rows: seq<AssignmentRow>, quizId: int, studentId: int): (n: nat)
    ensures n > 0 <==> IsAssigned(rows, quizId, studentId)
    decreases |rows|
  {
    if |rows| == 0 then 0
    else
      var last := rows[|rows| - 1];
      AssignmentCount(rows[..|rows| - 1], quizId, studentId) +
        (if last.quizId == Some(quizId) && last.studentId == studentId then 1 else 0)
  }

  /** `findByQuizId(quizId)` on questions, in table order. */
  function QuestionsOf(rows: seq<QuestionRow>, quizId: int): (r: seq<QuestionRow>)
    ensures forall q :: q in r <==> q in rows && q.quizId == quizId
    ensures |r| <= |rows|
  {
    if |rows| == 0 then []
    else (if rows[0].quizId == quizId then [rows[0]] else []) + QuestionsOf(rows[1..], quizId)
  }

  /** The position of the row with this id, if any. */
  function QuestionIndex(rows: seq<QuestionRow>, id: int): (r: Option<nat>)
    ensures r.Some? ==> r.value < |rows| && rows[r.value].id == id
    ensures r.None? ==> forall j :: 0 <= j < |rows| ==> rows[j].id != id
  {
    if |rows| == 0 then None
    else if rows[0].id == id then Some(0)
    else
      var rest := QuestionIndex(rows[1..], id);
      if rest.Some? then Some(rest.value + 1) else None
  }

  predicate HasQuiz(rows: seq<QuizRow>, id: int) {
    exists i :: 0 <= i < |rows| && rows[i].id == id
  }

  class Database {
    /** Topic ids and their titles. */
    var topics: map<int, string>
    var quizzes: seq<QuizRow>
    var questions: seq<QuestionRow>
    var assignments: seq<AssignmentRow>
    var attempts: seq<AttemptRow>
    /** Student ids, in `findAll` order. */
    var students: seq<int>
    /** The next generated id. */
    var nextId: int

    constructor(topics: map<int, string>, students: seq<int>)
      ensures this.topics == topics && this.students == students
      ensures quizzes == [] && questions == [] && assignments == [] && attempts == []
      ensures nextId == 1
    {
      this.topics := topics;
      this.students := students;
      quizzes := [];
      questions := [];
      assignments := [];
      attempts := [];
      nextId := 1;
    }
  }
}
