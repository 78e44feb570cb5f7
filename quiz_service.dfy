/**
 * Quiz authoring on the backend: turning generated questions into stored
 * rows (with MCQ answers normalised to a letter), the sample questions
 * used when generation fails, editing a question, and assigning a quiz to
 * students without duplicates.
 */
module QuizService {
  import opened Wrappers
  import opened JsText
  import opened Repositories

  /**
   * One element of the generated JSON array. `question`, `options` and
   * `answer` are `None` when missing or of the wrong JSON type; the type
   * field is its text when present and `None` when absent.
   */
  datatype GeneratedQuestion = GeneratedQuestion(
    question: Option<string>,
    qtype: Option<string>,
    options: Option<seq<string>>,
    answer: Option<string>)

  /** The caller's edit of a question. */
  datatype QuestionEdit = QuestionEdit(
    text: string,
    optionA: Option<string>, optionB: Option<string>, optionC: Option<string>, optionD: Option<string>,
    correctAnswer: Option<string>)

  predicate IsChoiceLetter(c: char) { c == 'A' || c == 'B' || c == 'C' || c == 'D' }

  /** `answer.trim().toUpperCase()`, reduced to its first letter when that is A to D. */
  function NormalizeAnswer(answer: string): (r: string)
    ensures |r| <= |JavaTrim(answer)|
    ensures r == [] <==> JavaTrim(answer) == []
  {
    var u := UpperAscii(JavaTrim(answer));
    if |u| > 0 && IsChoiceLetter(u[0]) then [u[0]] else u
  }

  /** Upper-casing leaves the characters up to U+0020 alone, so it keeps a string trimmed. */
  lemma UpperKeepsTrimmed(s: string)
    requires s == [] || (s[0] > ' ' && s[|s| - 1] > ' ')
    ensures JavaTrim(UpperAscii(s)) == UpperAscii(s)
  {
  }

  lemma UpperIdempotent(s: string)
    ensures UpperAscii(UpperAscii(s)) == UpperAscii(s)
  {
  }

  /** On a string that is already trimmed and upper-case, normalising only keeps a leading letter. */
  lemma NormalizeFixed(s: string)
    requires JavaTrim(s) == s && UpperAscii(s) == s
    ensures NormalizeAnswer(s) == if |s| > 0 && IsChoiceLetter(s[0]) then [s[0]] else s
  {
  }

  /** Normalising twice changes nothing. */
  lemma NormalizeAnswerIdempotent(answer: string)
    ensures NormalizeAnswer(NormalizeAnswer(answer)) == NormalizeAnswer(answer)
  {
    var t := JavaTrim(answer);
    var u := UpperAscii(t);
    UpperKeepsTrimmed(t);
    UpperIdempotent(t);
    var r := NormalizeAnswer(answer);
    if |u| > 0 && IsChoiceLetter(u[0]) {
      assert r == [u[0]];
      assert UpperAscii(r) == r;
    }
    NormalizeFixed(r);
  }

  /**
   * An answer that starts, after trimming, with a letter a to d in either
   * case is stored as that capital letter; any other answer is stored as its
   * trimmed, upper-cased text.
   */
  lemma NormalizeAnswerLetter(answer: string)
    ensures var t := JavaTrim(answer);
            |t| > 0 && 'a' <= t[0] <= 'd' ==> NormalizeAnswer(answer) == [(t[0] as int - 32) as char]
    ensures var t := JavaTrim(answer);
            |t| > 0 && IsChoiceLetter(t[0]) ==> NormalizeAnswer(answer) == [t[0]]
    ensures var t := JavaTrim(answer);
            |t| == 0 || t[0] !in "abcdABCD" ==> NormalizeAnswer(answer) == UpperAscii(t)
  {
    var t := JavaTrim(answer);
    if |t| > 0 {
      var u := UpperAscii(t);
      assert u[0] == UpperChar(t[0]);
      if 'a' <= t[0] <= 'd' {
        var c := (t[0] as int - 32) as char;
        assert 'A' <= c <= 'D';
        assert IsChoiceLetter(c);
      }
    }
  }

  /**
   * `QuestionType.valueOf(q.optString("type", "MCQ").toUpperCase())`; a
   * missing type is read as "MCQ", and a name other than MCQ or SAQ is an error.
   */
  function ParseType(t: Option<string>): (r: Option<QuestionType>)
    ensures t.None? ==> r == Some(MCQ)
    ensures r == Some(SAQ) ==> t.Some? && UpperEquals(t.value, "SAQ")
  {
    if t.None? then Some(MCQ)
    else if UpperEquals(t.value, "MCQ") then Some(MCQ)
    else if UpperEquals(t.value, "SAQ") then Some(SAQ)
    else None
  }

  /** The row stored for one generated question, or the reason it is rejected. */
  function BuildQuestion(g: GeneratedQuestion, quizId: int, id: int): (r: Result<QuestionRow, string>)
    ensures r.Ok? ==> r.value.id == id && r.value.quizId == quizId && g.question == Some(r.value.text)
    ensures r.Ok? && r.value.qtype == SAQ ==>
              r.value.optionA.None? && r.value.optionB.None? && r.value.optionC.None? &&
              r.value.optionD.None? && r.value.correctAnswer.None?
    ensures r.Ok? && r.value.qtype == MCQ ==>
              g.options.Some? && |g.options.value| >= 4 && g.answer.Some? &&
              r.value.optionA == Some(g.options.value[0]) && r.value.optionB == Some(g.options.value[1]) &&
              r.value.optionC == Some(g.options.value[2]) && r.value.optionD == Some(g.options.value[3]) &&
              r.value.correctAnswer == Some(NormalizeAnswer(g.answer.value))
  {
    if g.question.None? then Err("JSONObject[\"question\"] not found.")
    else
      match ParseType(g.qtype)
      case None => Err("No enum constant for question type")
      case Some(SAQ) => Ok(QuestionRow(id, quizId, g.question.value, SAQ, None, None, None, None, None))
      case Some(MCQ) =>
        if g.options.None? || |g.options.value| < 4 then Err("JSONObject[\"options\"] not usable.")
        else if g.answer.None? then Err("JSONObject[\"answer\"] not found.")
        else
          var o := g.options.value;
          Ok(QuestionRow(id, quizId, g.question.value, MCQ, Some(o[0]), Some(o[1]), Some(o[2]), Some(o[3]),
                         Some(NormalizeAnswer(g.answer.value))))
  }

  /** The outcome of storing generated questions: the rows saved before the first rejection, and that rejection. */
  datatype Saved = Saved(rows: seq<QuestionRow>, error: Option<string>)

  /** Building a row for the quiz `quizId`, as a function of the element and the id to give it. */
  function Builder(quizId: int): (GeneratedQuestion, int) -> Result<QuestionRow, string> {
    (g: GeneratedQuestion, id: int) => BuildQuestion(g, quizId, id)
  }

  /**
   * Stores the elements in order with consecutive ids from `firstId`; after
   * the first rejection nothing more is stored.
   */
  function BuildAll(gs: seq<GeneratedQuestion>, build: (GeneratedQuestion, int) -> Result<QuestionRow, string>,
                    firstId: int): (s: Saved)
    ensures |s.rows| <= |gs|
    ensures s.error.None? ==> |s.rows| == |gs|
    decreases |gs|
  {
    if |gs| == 0 then Saved([], None)
    else
      var prev := BuildAll(gs[..|gs| - 1], build, firstId);
      if prev.error.Some? then prev
      else
        var b := build(gs[|gs| - 1], firstId + |prev.rows|);
        if b.Err? then Saved(prev.rows, Some(b.error)) else Saved(prev.rows + [b.value], None)
  }

  /**
   * The stored rows are the built elements, with consecutive ids, up to the
   * first rejected element, whose rejection is the error reported.
   */
  lemma {:induction false} BuildAllRows(gs: seq<GeneratedQuestion>, build: (GeneratedQuestion, int) -> Result<QuestionRow, string>,
                                        firstId: int)
    ensures var s := BuildAll(gs, build, firstId);
            && (forall i :: 0 <= i < |s.rows| ==> build(gs[i], firstId + i) == Ok(s.rows[i]))
            && (s.error.Some? ==> |s.rows| < |gs| && build(gs[|s.rows|], firstId + |s.rows|) == Err(s.error.value))
    decreases |gs|
  {
    if |gs| > 0 {
      var init := gs[..|gs| - 1];
      BuildAllRows(init, build, firstId);
      var prev := BuildAll(init, build, firstId);
      forall i | 0 <= i < |prev.rows| ensures gs[i] == init[i] { }
    }
  }

  /** Once an element is rejected, later elements change nothing. */
  lemma {:induction false} BuildAllStops(gs: seq<GeneratedQuestion>, build: (GeneratedQuestion, int) -> Result<QuestionRow, string>,
                                         firstId: int, k: nat)
    requires k <= |gs| && BuildAll(gs[..k], build, firstId).error.Some?
    ensures BuildAll(gs, build, firstId) == BuildAll(gs[..k], build, firstId)
    decreases |gs| - k
  {
    if k < |gs| {
      var init := gs[..|gs| - 1];
      assert init[..k] == gs[..k];
      BuildAllStops(init, build, firstId, k);
    } else {
      assert gs[..k] == gs;
    }
  }

  /** When no element is rejected, everything is stored. */
  lemma {:induction false} BuildAllAccepts(gs: seq<GeneratedQuestion>, build: (GeneratedQuestion, int) -> Result<QuestionRow, string>,
                                           firstId: int)
    requires forall i :: 0 <= i < |gs| ==> build(gs[i], firstId + i).Ok?
    ensures BuildAll(gs, build, firstId).error.None?
    decreases |gs|
  {
    if |gs| > 0 {
      var init := gs[..|gs| - 1];
      forall i | 0 <= i < |init| ensures build(init[i], firstId + i).Ok? {
        assert init[i] == gs[i];
      }
      BuildAllAccepts(init, build, firstId);
    }
  }

  function Max0(n: int): nat { if n > 0 then n else 0 }

  function SampleMcq(i: nat, topicName: string, difficulty: string): GeneratedQuestion {
    GeneratedQuestion(
      Some("Sample question " + NatToString(i + 1) + " about " + topicName + " (" + difficulty + " level)"),
      Some("MCQ"),
      Some(["Option A: Sample answer", "Option B: Sample answer", "Option C: Sample answer", "Option D: Sample answer"]),
      Some("A"))
  }

  function SampleSaq(i: nat, topicName: string, difficulty: string): GeneratedQuestion {
    GeneratedQuestion(
      Some("Short answer question " + NatToString(i + 1) + " about " + topicName + " (" + difficulty + " level)"),
      Some("SAQ"), None, None)
  }

  /** The fallback array: the sample MCQs, then the sample SAQs. */
  function FallbackQuestions(topicName: string, difficulty: string, countMCQ: int, countSAQ: int): (r: seq<GeneratedQuestion>)
    ensures |r| == Max0(countMCQ) + Max0(countSAQ)
    ensures forall i :: 0 <= i < |r| ==> r[i].qtype == Some(if i < Max0(countMCQ) then "MCQ" else "SAQ")
  {
    seq(Max0(countMCQ), i requires 0 <= i => SampleMcq(i, topicName, difficulty)) +
    seq(Max0(countSAQ), i requires 0 <= i => SampleSaq(i, topicName, difficulty))
  }

  /** `generateFallbackQuestions`: two loops filling the array. */
  method GenerateFallbackQuestions(topicName: string, difficulty: string, countMCQ: int, countSAQ: int)
    returns (questions: seq<GeneratedQuestion>)
    ensures questions == FallbackQuestions(topicName, difficulty, countMCQ, countSAQ)
  {
    questions := [];
    var i := 0;
    while i < countMCQ
      invariant 0 <= i <= Max0(countMCQ)
      invariant questions == seq(i, k requires 0 <= k => SampleMcq(k, topicName, difficulty))
    {
      questions := questions + [SampleMcq(i, topicName, difficulty)];
      i := i + 1;
    }
    var mcqs := questions;
    var j := 0;
    while j < countSAQ
      invariant 0 <= j <= Max0(countSAQ)
      invariant questions == mcqs + seq(j, k requires 0 <= k => SampleSaq(k, topicName, difficulty))
    {
      questions := questions + [SampleSaq(j, topicName, difficulty)];
      j := j + 1;
    }
  }

  /**
   * The fallback array has one entry per requested question (negative
   * counts give none), MCQs first; every MCQ has four options and answer
   * "A", and every entry is stored without rejection.
   */
  lemma FallbackQuestionsShape(topicName: string, difficulty: string, countMCQ: int, countSAQ: int)
    ensures var qs := FallbackQuestions(topicName, difficulty, countMCQ, countSAQ);
            && |qs| == Max0(countMCQ) + Max0(countSAQ)
            && (forall i :: 0 <= i < Max0(countMCQ) ==>
                  qs[i].qtype == Some("MCQ") && qs[i].options.Some? && |qs[i].options.value| == 4 && qs[i].answer == Some("A"))
            && (forall i :: Max0(countMCQ) <= i < |qs| ==> qs[i].qtype == Some("SAQ"))
  {
  }

  /** Storing the fallback array never fails: every MCQ gets answer "A", every SAQ no options and no answer. */
  lemma FallbackQuestionsStore(topicName: string, difficulty: string, countMCQ: int, countSAQ: int, quizId: int, firstId: int)
    ensures var qs := FallbackQuestions(topicName, difficulty, countMCQ, countSAQ);
            var s := BuildAll(qs, Builder(quizId), firstId);
            && s.error.None? && |s.rows| == |qs|
            && (forall i :: 0 <= i < Max0(countMCQ) ==> s.rows[i].qtype == MCQ && s.rows[i].correctAnswer == Some("A"))
            && (forall i :: Max0(countMCQ) <= i < |s.rows| ==> s.rows[i].qtype == SAQ && s.rows[i].correctAnswer.None?)
  {
    var qs := FallbackQuestions(topicName, difficulty, countMCQ, countSAQ);
    var build := Builder(quizId);
    assert UpperEquals("MCQ", "MCQ") && !UpperEquals("SAQ", "MCQ") && UpperEquals("SAQ", "SAQ");
    assert NormalizeAnswer("A") == "A";
    forall i | 0 <= i < |qs|
      ensures build(qs[i], firstId + i).Ok?
      ensures i < Max0(countMCQ) ==>
                (build(qs[i], firstId + i).value.qtype == MCQ && build(qs[i], firstId + i).value.correctAnswer == Some("A"))
      ensures i >= Max0(countMCQ) ==>
                (build(qs[i], firstId + i).value.qtype == SAQ && build(qs[i], firstId + i).value.correctAnswer.None?)
    {
    }
    BuildAllAccepts(qs, build, firstId);
    BuildAllRows(qs, build, firstId);
  }

  function TopicNotFound(topicId: int): string { "Topic not found with id " + IntToString(topicId) }

  /**
   * `createQuiz`: the quiz row is saved first, then each question in turn;
   * `generated` is the generator's array, `None` when the generator fails
   * and the fallback array is used. A rejected question ends the call with
   * an error, leaving the quiz and the questions before it saved.
   */
  method CreateQuiz(db: Database, topicId: int, difficulty: string, countMCQ: int, countSAQ: int,
                    generated: Option<seq<GeneratedQuestion>>)
    returns (r: Result<QuizRow, string>)
    modifies db
    ensures topicId !in old(db.topics) ==> r == Err(TopicNotFound(topicId)) && unchanged(db)
    ensures topicId in old(db.topics) ==>
              var quiz := QuizRow(old(db.nextId), topicId, difficulty);
              var gs := if generated.Some? then generated.value
                        else FallbackQuestions(old(db.topics)[topicId], difficulty, countMCQ, countSAQ);
              var saved := BuildAll(gs, Builder(quiz.id), old(db.nextId) + 1);
              && db.quizzes == old(db.quizzes) + [quiz]
              && db.questions == old(db.questions) + saved.rows
              && db.nextId == old(db.nextId) + 1 + |saved.rows|
              && (r.Ok? <==> saved.error.None?)
              && (r.Ok? ==> r.value == quiz)
              && (r.Err? ==> r.error == saved.error.value)
    ensures db.topics == old(db.topics) && db.assignments == old(db.assignments)
    ensures db.attempts == old(db.attempts) && db.students == old(db.students)
  {
    if topicId !in db.topics {
      return Err(TopicNotFound(topicId));
    }
    var quiz := QuizRow(db.nextId, topicId, difficulty);
    db.quizzes := db.quizzes + [quiz];
    db.nextId := db.nextId + 1;
    var questions;
    if generated.Some? {
      questions := generated.value;
    } else {
      questions := GenerateFallbackQuestions(db.topics[topicId], difficulty, countMCQ, countSAQ);
    }
    ghost var quizzes, firstId := db.quizzes, db.nextId;
    assert quizzes == old(db.quizzes) + [quiz] && firstId == old(db.nextId) + 1;
    assert questions == if generated.Some? then generated.value
                        else FallbackQuestions(old(db.topics)[topicId], difficulty, countMCQ, countSAQ);
    var error := StoreQuestions(db, questions, Builder(quiz.id));
    assert db.quizzes == quizzes;
    if error.Some? {
      return Err(error.value);
    }
    return Ok(quiz);
  }

  /**
   * The saving loop of `createQuiz`: each element is built with the next id
   * and appended, and the first rejection ends the loop with its error.
   */
  method StoreQuestions(db: Database, questions: seq<GeneratedQuestion>,
                        build: (GeneratedQuestion, int) -> Result<QuestionRow, string>)
    returns (error: Option<string>)
    modifies db
    ensures var saved := BuildAll(questions, build, old(db.nextId));
            && db.questions == old(db.questions) + saved.rows
            && db.nextId == old(db.nextId) + |saved.rows|
            && error == saved.error
    ensures db.quizzes == old(db.quizzes) && db.topics == old(db.topics) && db.assignments == old(db.assignments)
    ensures db.attempts == old(db.attempts) && db.students == old(db.students)
  {
    ghost var firstId := db.nextId;
    var i := 0;
    while i < |questions|
      invariant 0 <= i <= |questions|
      invariant BuildAll(questions[..i], build, firstId).error.None?
      invariant db.questions == old(db.questions) + BuildAll(questions[..i], build, firstId).rows
      invariant db.nextId == firstId + i
      invariant db.quizzes == old(db.quizzes) && db.topics == old(db.topics)
      invariant db.assignments == old(db.assignments) && db.attempts == old(db.attempts) && db.students == old(db.students)
    {
      assert questions[..i + 1][..i] == questions[..i];
      var built := build(questions[i], db.nextId);
      if built.Err? {
        BuildAllStops(questions, build, firstId, i + 1);
        return Some(built.error);
      }
      db.questions := db.questions + [built.value];
      db.nextId := db.nextId + 1;
      i := i + 1;
    }
    assert questions[..i] == questions;
    return None;
  }

  function QuestionNotFound(id: int): string { "Question not found with id " + IntToString(id) }

  /** `updateQuestion`: overwrites the text, the four options and the answer; keeps the id, quiz and type. */
  method UpdateQuestion(db: Database, questionId: int, edit: QuestionEdit) returns (r: Result<QuestionRow, string>)
    modifies db
    ensures QuestionIndex(old(db.questions), questionId).None? ==> r == Err(QuestionNotFound(questionId)) && unchanged(db)
    ensures QuestionIndex(old(db.questions), questionId).Some? ==>
              var i := QuestionIndex(old(db.questions), questionId).value;
              var q := old(db.questions)[i];
              && r == Ok(QuestionRow(q.id, q.quizId, edit.text, q.qtype, edit.optionA, edit.optionB,
                                     edit.optionC, edit.optionD, edit.correctAnswer))
              && db.questions == old(db.questions)[i := r.value]
    ensures db.quizzes == old(db.quizzes) && db.assignments == old(db.assignments) && db.attempts == old(db.attempts)
    ensures db.topics == old(db.topics) && db.students == old(db.students) && db.nextId == old(db.nextId)
  {
    var found := QuestionIndex(db.questions, questionId);
    if found.None? {
      return Err(QuestionNotFound(questionId));
    }
    var q := db.questions[found.value];
    var updated := q.(text := edit.text, optionA := edit.optionA, optionB := edit.optionB,
                      optionC := edit.optionC, optionD := edit.optionD, correctAnswer := edit.correctAnswer);
    db.questions := db.questions[found.value := updated];
    r := Ok(updated);
  }

  /** The assignments after assigning the quiz to each listed student who does not have it yet. */
  function AssignEach(rows: seq<AssignmentRow>, quizId: int, studentIds: seq<int>): (r: seq<AssignmentRow>)
    ensures |rows| <= |r| <= |rows| + |studentIds| && r[..|rows|] == rows
    ensures forall i :: |rows| <= i < |r| ==> r[i].quizId == Some(quizId) && r[i].studentId in studentIds && r[i].status == ASSIGNED
    decreases |studentIds|
  {
    if |studentIds| == 0 then rows
    else
      var init := AssignEach(rows, quizId, studentIds[..|studentIds| - 1]);
      var s := studentIds[|studentIds| - 1];
      if IsAssigned(init, quizId, s) then init else init + [AssignmentRow(Some(quizId), s, ASSIGNED)]
  }

  /**
   * After assigning, every listed student has the quiz; a student who had
   * none has exactly one; a student who already had it, or was not listed,
   * gains none; existing rows are untouched.
   */
  lemma {:induction false} AssignEachCounts(rows: seq<AssignmentRow>, quizId: int, studentIds: seq<int>, s: int)
    ensures AssignmentCount(AssignEach(rows, quizId, studentIds), quizId, s) ==
              if s in studentIds && AssignmentCount(rows, quizId, s) == 0 then 1 else AssignmentCount(rows, quizId, s)
    ensures s in studentIds ==> IsAssigned(AssignEach(rows, quizId, studentIds), quizId, s)
    decreases |studentIds|
  {
    if |studentIds| > 0 {
      var init := studentIds[..|studentIds| - 1];
      var t := studentIds[|studentIds| - 1];
      AssignEachCounts(rows, quizId, init, s);
      var before := AssignEach(rows, quizId, init);
      assert s in studentIds <==> s in init || s == t;
      if !IsAssigned(before, quizId, t) {
        var after := before + [AssignmentRow(Some(quizId), t, ASSIGNED)];
        assert after[..|after| - 1] == before;
        assert after[..|rows|] == before[..|rows|];
        if s == t {
          assert AssignmentCount(before, quizId, s) == 0;
        }
      }
    }
  }

  /** Assigning the same students again adds nothing. */
  lemma {:induction false} AssignEachIdempotent(rows: seq<AssignmentRow>, quizId: int, studentIds: seq<int>)
    ensures AssignEach(AssignEach(rows, quizId, studentIds), quizId, studentIds) == AssignEach(rows, quizId, studentIds)
  {
    var once := AssignEach(rows, quizId, studentIds);
    forall s | s in studentIds ensures IsAssigned(once, quizId, s) {
      AssignEachCounts(rows, quizId, studentIds, s);
    }
    AssignEachNoop(once, quizId, studentIds);
  }

  /** Assigning students who all have the quiz changes nothing. */
  lemma {:induction false} AssignEachNoop(rows: seq<AssignmentRow>, quizId: int, studentIds: seq<int>)
    requires forall s :: s in studentIds ==> IsAssigned(rows, quizId, s)
    ensures AssignEach(rows, quizId, studentIds) == rows
    decreases |studentIds|
  {
    if |studentIds| > 0 {
      AssignEachNoop(rows, quizId, studentIds[..|studentIds| - 1]);
    }
  }

  const QuizNotFound := "Quiz not found"
  const StudentNotFound := "Student not found"

  /**
   * The longest prefix of `studentIds` made of known students: the loop
   * stops with an error at the first unknown one.
   */
  function KnownPrefix(studentIds: seq<int>, students: seq<int>): (n: nat)
    ensures n <= |studentIds|
    ensures forall i :: 0 <= i < n ==> studentIds[i] in students
    ensures n < |studentIds| ==> studentIds[n] !in students
  {
    if |studentIds| == 0 || studentIds[0] !in students then 0
    else 1 + KnownPrefix(studentIds[1..], students)
  }

  /**
   * `assignQuizToStudents`: each listed student is looked up and assigned
   * unless already assigned; an unknown student ends the call with an error,
   * keeping the assignments made before it.
   */
  method AssignQuizToStudents(db: Database, quizId: int, studentIds: seq<int>) returns (r: Result<(), string>)
    modifies db
    ensures !HasQuiz(old(db.quizzes), quizId) ==> r == Err(QuizNotFound) && unchanged(db)
    ensures HasQuiz(old(db.quizzes), quizId) ==>
              var n := KnownPrefix(studentIds, old(db.students));
              && db.assignments == AssignEach(old(db.assignments), quizId, studentIds[..n])
              && (r.Ok? <==> n == |studentIds|)
              && (r.Err? ==> r == Err(StudentNotFound))
    ensures db.quizzes == old(db.quizzes) && db.questions == old(db.questions) && db.attempts == old(db.attempts)
    ensures db.topics == old(db.topics) && db.students == old(db.students) && db.nextId == old(db.nextId)
  {
    if !HasQuiz(db.quizzes, quizId) {
      return Err(QuizNotFound);
    }
    var n := KnownPrefix(studentIds, db.students);
    for i := 0 to |studentIds|
      invariant i <= n
      invariant db.assignments == AssignEach(old(db.assignments), quizId, studentIds[..i])
      invariant db.quizzes == old(db.quizzes) && db.questions == old(db.questions) && db.attempts == old(db.attempts)
      invariant db.topics == old(db.topics) && db.students == old(db.students) && db.nextId == old(db.nextId)
    {
      var studentId := studentIds[i];
      if studentId !in db.students {
        return Err(StudentNotFound);
      }
      assert studentIds[..i + 1][..i] == studentIds[..i];
      if !IsAssigned(db.assignments, quizId, studentId) {
        db.assignments := db.assignments + [AssignmentRow(Some(quizId), studentId, ASSIGNED)];
      }
    }
    assert studentIds[..|studentIds|] == studentIds;
    return Ok(());
  }

  /** `assignQuizToAllStudents`: assigns the quiz to every student, in `findAll` order. */
  method AssignQuizToAllStudents(db: Database, quizId: int) returns (r: Result<(), string>)
    modifies db
    ensures !HasQuiz(old(db.quizzes), quizId) ==> r == Err(QuizNotFound) && unchanged(db)
    ensures HasQuiz(old(db.quizzes), quizId) ==>
              r.Ok? && db.assignments == AssignEach(old(db.assignments), quizId, old(db.students))
    ensures db.quizzes == old(db.quizzes) && db.questions == old(db.questions) && db.attempts == old(db.attempts)
    ensures db.topics == old(db.topics) && db.students == old(db.students) && db.nextId == old(db.nextId)
  {
    if !HasQuiz(db.quizzes, quizId) {
      return Err(QuizNotFound);
    }
    var all := db.students;
    for i := 0 to |all|
      invariant db.assignments == AssignEach(old(db.assignments), quizId, all[..i])
      invariant db.quizzes == old(db.quizzes) && db.questions == old(db.questions) && db.attempts == old(db.attempts)
      invariant db.topics == old(db.topics) && db.students == old(db.students) && db.nextId == old(db.nextId)
    {
      assert all[..i + 1][..i] == all[..i];
      if !IsAssigned(db.assignments, quizId, all[i]) {
        db.assignments := db.assignments + [AssignmentRow(Some(quizId), all[i], ASSIGNED)];
      }
    }
    assert all[..|all|] == all;
    return Ok(());
  }
}
