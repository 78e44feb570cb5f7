# Skill-forge learning platform: a verified model of its logic

Skill-forge is a learning platform with a React front end and a Spring back end.
Instructors organise courses into subjects and topics. They generate quizzes for a
topic and assign them to students. Students take the quizzes and then see their
scores, grading bands and learning path.

This project models the self-contained logic scattered through those views and
services, and proves properties of it. It covers:

- **Grading.** Score normalisation and the grading bands of the result screen, the
  performance pages and the progress card.
- **Learning path.** The walk that picks the next topic, subject or course.
- **Paths and URLs.** The path and URL rewriting of the topic controller, both
  file-storage services and the topic-management page.
- **Quiz services.** Quiz generation, answer normalisation, assignment and
  grading in the two back-end services.
- **Quiz taking.** The quiz-taking state machine and its `mm:ss` timer text.
- **Forms and lists.** The validators and submit rules of the six forms, and the
  in-memory student list.

Each module follows one source file:

| source | module | form |
|---|---|---|
| `components/QuizResult.jsx` | `QuizResult` | functions and lemmas |
| `utils/progression.js` | `Progression` (with `Sorting`) | functions over a snapshot of the backend responses |
| `pages/Performance.jsx` | `Performance` (with `Attempts`, `Grouping`) | functions; the grouping loop is the method `Grouping.Group` |
| `pages/InstructorStudentPerformance.jsx` | `InstructorPerformance` | functions; the topic map is built by `Grouping.Group` |
| `components/ProgressCard.jsx` | `ProgressCard` | functions |
| back end `StudentQuizService.java` | `StudentQuizService` (with `Repositories`) | methods on a `Database` class |
| back end `QuizService.java` | `QuizService` | methods on the `Database` class, with loops |
| `TopicController.java` | `TopicController` | a pure `NormalizePath`, plus methods on `Topic` objects |
| both `FileStorageService.java` variants | `FileStorage`, `LegacyFileStorage` (with `JavaPaths`) | path functions, plus a class holding the set of stored files |
| `pages/TopicManagement.jsx` | `TopicManagement` | `BuildAssetUrl`, plus a form-state class |
| `components/QuizTaker.jsx` | `QuizTaker` | a `QuizSession` class |
| `StudentCRUDExample.jsx` | `StudentCrud` | a `StudentList` class |
| `Signup.jsx`, `Login.jsx` | `Signup`, `Login` (with `Validation`) | validators and page classes |
| `StudentForm.jsx`, `SubjectForm.jsx`, `TopicForm.jsx`, `CourseForm.jsx` | `StudentForm`, `SubjectForm`, `TopicForm`, `CourseForm` | validators and form-state classes |

The support modules are:

- `Wrappers`: `Option` and `Result`.
- `JsNumber`: JavaScript numbers as exact reals or NaN, `Math.round`, `??`, `||` and `Number(...)` on JSON values.
- `JsText`: `trim`, ASCII `toUpperCase`, `indexOf`, `replace`, and number-to-text conversion.
- `JavaPaths`: `Paths.get` and `Path.resolve` on Unix path text. The parts are joined with '/', runs of '/' are collapsed, and a trailing '/' is dropped.

## Modelling decisions

- **JavaScript numbers.** A number is an exact real or NaN. Comparisons with NaN are false.
  - `Math.round(c / t * 100)` on whole counts is proved equal to the integer `(200c + t) div (2t)`.
  - Floating-point rounding error and infinities are not modelled.
- **JSON fields.** A field is `Undefined`, `Null`, `Num(r)` or `Junk`. `Junk` stands for any present value with no numeric reading. The model uses this to tell apart what `??`, `||` and `Number(...)` see.
- **Arrays.**
  - `Array.prototype.sort` with a key comparator is an insertion sort on sequences; its result is proved ordered by the key and a permutation of its input.
  - `find` and `findIndex` take the first match.
- **Side effects become parameters.** Fetched collections, the AI generator's output, generated UUIDs, the current time and the user id stored in the browser are parameters.
  - The generator's output is `None` when the call throws.
  - In each file-storage service, the file system is the field `files`, a set of paths. A path is the normalised text that `Paths.get` and `resolve` build, so two spellings of one path, such as `./uploads//videos/a.mp4` and `./uploads/videos/a.mp4`, name the same file.
- **Repositories.**
  - JPA repositories are sequences and maps in the `Database` class.
  - Repository order is assumed to be table order.
  - `nextId` stands for the database's id generator.
- **Behaviour of the code worth noting:**
  - The result screen does not clamp the percentage: 3 correct out of 2 shows 150%.
  - `score` is one of the correct-count aliases. The fraction-or-percentage fallback therefore runs only when the first present correct-count alias has no numeric reading. A record holding only `{score: 0.42}` shows 0%.
  - SAQ questions are stored with all four options null.
  - Login's `/\S+@\S+\.\S/` and Signup's `/\S+@\S+\.\S+/` accept the same strings under `RegExp.test`. A match of either can be cut down to non-space, `@`, non-space run, `.`, non-space. See `Validation.LoginAndSignupEmailTestsAgree`.
  - `buildAssetUrl` adds a `/` only when none is there, so `"//x"` keeps both slashes.
  - In `normalizePath`, the `/uploads/` branch is never taken after the `indexOf("uploads/")` step, because the path then either starts with `uploads/` or does not contain it. The model keeps the branch.

## Model

| member | source | states |
|---|---|---|
| QuizResult.FirstPresent | frontend/src/components/QuizResult.jsx:5-6 | the first non-nullish value of an alias chain; absent exactly when every alias is nullish |
| QuizResult.CorrectCountAliasOrder | frontend/src/components/QuizResult.jsx:6 | the correct count is `Number` of the first present alias among correctAnswers, correct_answers, correct, score (NaN when none) |
| QuizResult.TotalQuestionsAliasOrder | frontend/src/components/QuizResult.jsx:5 | the total is `Number` of totalQuestions, then total, then the length of questionResults, then 0 |
| QuizResult.ZeroTotalGivesZero | frontend/src/components/QuizResult.jsx:10-11 | a total of 0 gives a percentage of 0 whatever the other fields hold |
| QuizResult.PercentageOfCounts | frontend/src/components/QuizResult.jsx:12-13 | with a numeric correct count c and total t > 0 the percentage is round(100c/t) = (200c+t) div 2t, and it lies in [0, 100] when 0 <= c <= t |
| QuizResult.NoClamping | frontend/src/components/QuizResult.jsx:12-13 | 3 correct out of 2 gives 150: the percentage is not clamped |
| QuizResult.FromRawScore | frontend/src/components/QuizResult.jsx:16-21 | the fallback percentage from a raw score is always a finite number |
| QuizResult.ScoreFallbackNeedsJunkAlias | frontend/src/components/QuizResult.jsx:14-21 | the score fallback runs iff the total is non-zero, score is present, and the first present correct-count alias is non-numeric |
| QuizResult.NumericScoreSkipsFallback | frontend/src/components/QuizResult.jsx:6 | a numeric score, with the other aliases absent, never reaches the fallback branch |
| QuizResult.ScoreOnlyRecordShowsZero | frontend/src/components/QuizResult.jsx:5-21 | a record holding only `score: 0.42` shows 0, not 42 |
| QuizResult.JunkAliasUsesFraction | frontend/src/components/QuizResult.jsx:14-18 | with a junk correct count and score 0.42 the fallback gives 42 |
| QuizResult.NextDifficultyBands | frontend/src/components/QuizResult.jsx:49-54 | EASY iff < 50, MEDIUM iff 50..75, HARD iff 75 < p < 90, ADVANCED iff >= 90 |
| QuizResult.NextDifficultyMonotone | frontend/src/components/QuizResult.jsx:49-54 | the next difficulty never decreases as the percentage rises |
| QuizResult.StatusLabelBands | frontend/src/components/QuizResult.jsx:31-37 | each of the five labels holds exactly on its band (< 50, <= 75, < 90, <= 95, above) |
| QuizResult.ScoreColorBands | frontend/src/components/QuizResult.jsx:24-29 | each of the four colours holds exactly on its band, lower bounds 90/75/50 inclusive |
| QuizResult.BoundaryExamples | frontend/src/components/QuizResult.jsx:24-37 | 75 is blue yet labelled Average; 90 and 95 are Very Good; 96 is Top |
| QuizResult.ScoreMessageBands | frontend/src/components/QuizResult.jsx:41-47 | each of the five messages holds exactly on its whole-number band (> 95, 90-95, 76-89, 50-75, < 50) |
| QuizResult.NaNPercentageClassification | frontend/src/components/QuizResult.jsx:24-66 | a NaN percentage is displayed as 0 but coloured red, labelled Top, messaged "Needs improvement" and mapped to ADVANCED |
| QuizResult.IncorrectIsTotalMinusCorrect | frontend/src/components/QuizResult.jsx:86 | with a non-zero total the incorrect count shown is total minus correct |
| QuizResult.IncorrectDashWithoutTotal | frontend/src/components/QuizResult.jsx:86 | with a zero total a dash is shown instead |
| JsNumber.RoundPercentOfCounts | frontend/src/components/QuizResult.jsx:13 | `Math.round(c / t * 100)` on whole numbers equals (200c + t) div 2t exactly |
| JsNumber.PercentOfCountsInRange | frontend/src/components/QuizResult.jsx:13 | for 0 <= c <= t, t > 0 the rounded percentage lies in [0, 100] |
| JsNumber.RoundMonotone | frontend/src/components/QuizResult.jsx:13 | `Math.round` is monotone |
| JsNumber.Round | frontend/src/components/QuizResult.jsx:13 | `Math.round(x)` is the integer r with r <= x + 1/2 < r + 1 |
| JsNumber.Max | frontend/src/pages/InstructorStudentPerformance.jsx:71 | `Math.max` is NaN iff an operand is, else the larger operand |
| JsNumber.OrZero | frontend/src/pages/Performance.jsx:170 | `x \|\| 0` is never NaN and keeps every finite x |
| Sorting.FindIndexByKey | frontend/src/utils/progression.js:21 | `findIndex`: -1 iff no element has the key, else the first index that has it |
| Sorting.FindByKey | frontend/src/utils/progression.js:13 | `find`: absent iff no element has the key; otherwise the element at the first index with the key |
| Sorting.SortByProperties | frontend/src/utils/progression.js:20 | the sorted array is a permutation of the input, ordered by id, strictly when ids are distinct |
| Sorting.SortByKeepsMembers | frontend/src/utils/progression.js:20 | sorting keeps exactly the same elements |
| Sorting.SortByStable | frontend/src/utils/progression.js:20 | the sort is stable: for every id, the elements carrying it appear in the output in the same order as in the input |
| Sorting.NextAfterIsSuccessor | frontend/src/utils/progression.js:20-25 | with distinct ids, "sort, find, take index + 1" yields a value iff the id is present and a larger id exists, and then it is the element with the smallest larger id |
| Progression.UnknownTopicFails | frontend/src/utils/progression.js:13-14 | a topic id missing from all topics gives ERROR with the fixed message, not an exception |
| Progression.FailedTopicFetchFails | frontend/src/utils/progression.js:12 | a failed topic fetch gives ERROR |
| Progression.FindNextTarget | frontend/src/utils/progression.js:9-83 | every ERROR result carries "Failed to determine next steps." and every COMPLETED result the congratulation message |
| Progression.NextTopicInSubject | frontend/src/utils/progression.js:16-32 | the result is TOPIC iff the subject has a later topic; it is the smallest later topic id and carries the current subject id; otherwise the walk continues with the subject |
| Progression.NextSubjectInCourse | frontend/src/utils/progression.js:35-59 | after the last topic, SUBJECT iff the course has a later subject, with the smallest later id and the current course id |
| Progression.UnknownSubjectFails | frontend/src/utils/progression.js:36-37 | a subject id missing from all subjects gives ERROR |
| Progression.NextCourseOrCompleted | frontend/src/utils/progression.js:62-79 | after the last subject, COURSE iff a later course exists (the smallest later id), else COMPLETED |
| Progression.AfterCourse | frontend/src/utils/progression.js:62-83 | the course step yields COURSE, COMPLETED or ERROR, and ERROR exactly when the course list could not be fetched |
| Progression.CompletedMeansNothingFollows | frontend/src/utils/progression.js:76-79 | COMPLETED implies no later topic in the subject, no later subject in the course and no later course |
| Attempts.SafeNumber | frontend/src/pages/Performance.jsx:53-56 | `Number(n)` when it is finite, else the fallback |
| Attempts.TopicLabel | frontend/src/pages/Performance.jsx:167 | the first truthy title among topic title, topic name and quiz title, else "General"; never empty |
| Attempts.TotalOrZero | frontend/src/pages/Performance.jsx:170 | the attempt's total is never NaN and is totalQuestions when that is numeric |
| Attempts.StoredPercentageOrder | frontend/src/pages/Performance.jsx:171 | without a total, percentage is used, then accuracy, then 0 |
| Performance.BucketsMatchQuizResult | frontend/src/pages/Performance.jsx:38-51 | the page's bucket label and colour coincide with the result screen's on every percentage |
| Performance.BucketColor | frontend/src/pages/Performance.jsx:46-51 | the bucket colour is one of the four colours, red exactly below 50 |
| Performance.ListedPercentageOfCounts | frontend/src/pages/Performance.jsx:118-120 | with whole counts and total > 0 the listed percentage is round(100c/t) |
| Performance.ListedPercentageWithoutTotal | frontend/src/pages/Performance.jsx:119-120 | without a total, the listed percentage is percentage, then accuracy, then 0; a junk percentage lists 0 |
| Performance.BarWidth | frontend/src/pages/Performance.jsx:132 | the bar width lies in [0, 100], equals pct inside it and the nearer bound outside it |
| Performance.ContributionInRange | frontend/src/pages/Performance.jsx:169-172 | an attempt with 0 <= score <= total > 0 adds a value in [0, 100] to its topic |
| Grouping.Keyed | frontend/src/pages/Performance.jsx:166-172 | one (key, value) pair per record, in order; both pages feed their attempts' (topic, contribution) pairs through it |
| Performance.RowsOf | frontend/src/pages/Performance.jsx:175 | one row per key in insertion order, with that key's rounded average |
| Performance.TopicRows | frontend/src/pages/Performance.jsx:164-175 | the strengths table is the grouping of the attempts' topic items, one averaged row per topic |
| Performance.TopicRowsAreTopicAverages | frontend/src/pages/Performance.jsx:172-175 | a row's average is round(sum of its topic's contributions / number of its attempts), with that number at least 1 |
| Performance.EveryTopicHasRow | frontend/src/pages/Performance.jsx:166-175 | every attempt's topic has a row |
| Performance.TopicCountsCoverAttempts | frontend/src/pages/Performance.jsx:164-174 | the row counts add up to the number of attempts |
| Performance.RowAverageInRange | frontend/src/pages/Performance.jsx:172-175 | when every contribution is in [0, 100], so is every row's average |
| Performance.AssessmentBands | frontend/src/pages/Performance.jsx:181 | "Strength" iff the average is >= 75, and then its badge is blue or green |
| Performance.Dated | frontend/src/pages/Performance.jsx:247 | keeps exactly the attempts that carry a date |
| Performance.TrendLevel | frontend/src/pages/Performance.jsx:254 | the trend level is between 1 and 4 |
| Performance.TrendLevelBands | frontend/src/pages/Performance.jsx:252-254 | level 1..4 on the bands < 50, 50..75, 75 < p < 90, >= 90; monotone; NaN is level 4 |
| Performance.TrendPoints | frontend/src/pages/Performance.jsx:247-256 | one point for each dated attempt, in sorted order |
| Performance.TrendPointsOrdered | frontend/src/pages/Performance.jsx:247 | one point per dated attempt, with times that never decrease |
| Performance.TrendPointsFromDatedAttempts | frontend/src/pages/Performance.jsx:249-256 | every point is the point of some dated attempt, at that attempt's time |
| Performance.TrendPointsArePermutation | frontend/src/pages/Performance.jsx:247 | the sorted attempts are a permutation of the dated ones |
| Grouping.Group | frontend/src/pages/Performance.jsx:165-174 | the `forEach` loop builds exactly the dictionary of the grouping fold |
| Grouping.GroupAllWellFormed | frontend/src/pages/Performance.jsx:165-174 | keys listed once each, exactly the dictionary's keys, each counting at least one item |
| Grouping.GroupAllTallies | frontend/src/pages/Performance.jsx:168-173 | a key has a tally iff some item carries it; its count and total are that key's occurrences and value sum |
| Grouping.GroupAllCountsSum | frontend/src/pages/Performance.jsx:173 | the counts add up to the number of items: each item is counted once |
| Grouping.GroupAllTotalBounds | frontend/src/pages/Performance.jsx:172-173 | a tally's total lies between count × lo and count × hi when every value does |
| InstructorPerformance.GetBucketBands | frontend/src/pages/InstructorStudentPerformance.jsx:48-53 | Low < 50, Average <= 75, Good < 90, Excellent otherwise (and for NaN) |
| InstructorPerformance.TotalAttempts | frontend/src/pages/InstructorStudentPerformance.jsx:57 | the reported count when it is finite, else the number of attempts |
| InstructorPerformance.SumOfFinite | frontend/src/pages/InstructorStudentPerformance.jsx:61 | the `reduce` sum is finite iff every term is, and then it is the real sum |
| InstructorPerformance.RawScores | frontend/src/pages/InstructorStudentPerformance.jsx:60 | one `Number(a.score ?? 0)` per attempt |
| InstructorPerformance.AvgScoreFallback | frontend/src/pages/InstructorStudentPerformance.jsx:58-62 | without a finite reported average: 0 with no attempts, else the rounded mean of the raw scores, NaN if one is NaN |
| InstructorPerformance.AttemptPercentages | frontend/src/pages/InstructorStudentPerformance.jsx:65-68 | one percentage per attempt |
| InstructorPerformance.AccuracyFallback | frontend/src/pages/InstructorStudentPerformance.jsx:63-70 | without a finite reported accuracy: 0 with no attempts, else the rounded mean of the attempt percentages |
| InstructorPerformance.MaxFromZeroBounds | frontend/src/pages/InstructorStudentPerformance.jsx:71 | the running maximum from 0 is finite iff every score is, and then it is >= 0, >= every score, and 0 or one of them |
| InstructorPerformance.HighestBounds | frontend/src/pages/InstructorStudentPerformance.jsx:71 | the highest score is >= 0 and >= every attempt's score |
| InstructorPerformance.SummariesOf | frontend/src/pages/InstructorStudentPerformance.jsx:83 | one row per key with its topic, attempt count and rounded average |
| InstructorPerformance.TopicRows | frontend/src/pages/InstructorStudentPerformance.jsx:74-83 | the topic rows are the grouping of the attempts' topic items |
| InstructorPerformance.TopicCountsCoverAttempts | frontend/src/pages/InstructorStudentPerformance.jsx:74-83 | the rows' attempt counts add up to the number of attempts |
| InstructorPerformance.Strengths | frontend/src/pages/InstructorStudentPerformance.jsx:85 | a topic is a strength iff some row of it has average >= 75 |
| InstructorPerformance.Weaknesses | frontend/src/pages/InstructorStudentPerformance.jsx:86 | a topic is a weakness iff some row of it has average < 50 |
| InstructorPerformance.StrengthsWeaknessesDisjoint | frontend/src/pages/InstructorStudentPerformance.jsx:85-86 | with distinct topics, no topic is both; a topic averaging 50..74 is in neither |
| InstructorPerformance.RowBadgeMatchesLists | frontend/src/pages/InstructorStudentPerformance.jsx:149 | a row's badge says Strong iff its topic is a strength and Weak iff it is a weakness |
| InstructorPerformance.Status | frontend/src/pages/InstructorStudentPerformance.jsx:108 | the overall status is Passed or Needs Improvement, Passed exactly when the accuracy is at least 50 |
| InstructorPerformance.LevelAndStatusBands | frontend/src/pages/InstructorStudentPerformance.jsx:107-108 | Beginner < 50, Medium <= 75, Advanced < 90, Expert otherwise; Passed iff >= 50; Beginner iff Needs Improvement; NaN is Expert yet Needs Improvement |
| ProgressCard.BackgroundBands | frontend/src/components/ProgressCard.jsx:5-9 | green iff >= 85, yellow iff 65 <= s < 85, red iff < 65; NaN is red |
| ProgressCard.TextColor | frontend/src/components/ProgressCard.jsx:11-15 | the text colour is one of the three colours, dark green exactly from 85 |
| ProgressCard.TextMatchesBackground | frontend/src/components/ProgressCard.jsx:5-15 | the text colour bands coincide with the background bands on every score |
| Repositories.FirstAssignment | backend/main/java/com/springpro/service/StudentQuizService.java:44-48 | the first row pairing the student and quiz; absent iff the quiz is not assigned |
| Repositories.AssignmentCount | backend/main/java/com/springpro/service/QuizService.java:207 | the number of rows pairing quiz and student is positive iff the quiz is assigned |
| Repositories.QuestionsOf | backend/main/java/com/springpro/service/StudentQuizService.java:81 | `findByQuizId`: exactly the quiz's questions |
| Repositories.QuestionIndex | backend/main/java/com/springpro/service/QuizService.java:180-181 | `findById`: the position of the row with the id, absent iff none |
| StudentQuizService.Views | backend/main/java/com/springpro/service/StudentQuizService.java:53-66 | each question view carries the id, text and four options of its question, and no answer |
| StudentQuizService.SetStatus | backend/main/java/com/springpro/service/StudentQuizService.java:50-51 | only the chosen assignment row changes, and only its status |
| StudentQuizService.StartAssignedQuiz | backend/main/java/com/springpro/service/StudentQuizService.java:38-72 | an unassigned quiz fails and changes nothing; otherwise the first matching assignment becomes IN_PROGRESS and the quiz's question views are returned |
| StudentQuizService.Score | backend/main/java/com/springpro/service/StudentQuizService.java:83-90 | the scoring loop's result is the number of questions answered correctly |
| StudentQuizService.CountCorrect | backend/main/java/com/springpro/service/StudentQuizService.java:83-90 | 0 <= score <= total, and the score is 0 iff no question is answered correctly |
| StudentQuizService.UnansweredNeverScores | backend/main/java/com/springpro/service/StudentQuizService.java:86-88 | removing an answer never raises the score; an unanswered question scores nothing |
| StudentQuizService.AllCorrectScoresAll | backend/main/java/com/springpro/service/StudentQuizService.java:85-90 | all answers correct gives score = total |
| StudentQuizService.AccuracyRange | backend/main/java/com/springpro/service/StudentQuizService.java:123 | accuracy lies in [0, 100] and is 100 iff every answer is correct |
| StudentQuizService.SubmitAssignedQuiz | backend/main/java/com/springpro/service/StudentQuizService.java:76-126 | fails iff unassigned or the student is unknown; otherwise it stores an attempt with the returned score and total, marks the first matching assignment SUBMITTED and returns the integer accuracy |
| StudentQuizService.SubmissionFiguresAgree | backend/main/java/com/springpro/service/StudentQuizService.java:104-105 | the stored and returned figures satisfy 0 <= score <= total and 0 <= accuracy <= 100 |
| StudentQuizService.AssignedHasFirstMatch | backend/main/java/com/springpro/service/StudentQuizService.java:111-118 | an assigned quiz has a first matching row, and updating it leaves every other row as it was |
| QuizService.NormalizeAnswerIdempotent | backend/main/java/com/springpro/service/QuizService.java:91-100 | normalising a stored answer again changes nothing |
| QuizService.NormalizeAnswerLetter | backend/main/java/com/springpro/service/QuizService.java:91-100 | a trimmed answer starting with a-d in either case is stored as that capital letter; otherwise it is stored as the trimmed upper-case text |
| QuizService.NormalizeFixed | backend/main/java/com/springpro/service/QuizService.java:94-99 | on trimmed upper-case text only a leading A-D letter is kept |
| QuizService.ParseType | backend/main/java/com/springpro/service/QuizService.java:80-82 | an absent type is MCQ; SAQ only from text equal to "SAQ" ignoring case |
| QuizService.BuildQuestion | backend/main/java/com/springpro/service/QuizService.java:73-110 | a stored row has the given id, quiz and text; an SAQ has no options and no answer; an MCQ has the four options and the normalised answer |
| QuizService.BuildAll | backend/main/java/com/springpro/service/QuizService.java:71-113 | at most one row per element is saved, and every element is saved when none is rejected |
| QuizService.BuildAllRows | backend/main/java/com/springpro/service/QuizService.java:71-113 | row i is element i built with id first + i; a rejection stops the loop at the rejected element |
| QuizService.BuildAllStops | backend/main/java/com/springpro/service/QuizService.java:71-113 | after a rejection, later elements change nothing |
| QuizService.BuildAllAccepts | backend/main/java/com/springpro/service/QuizService.java:71-113 | when every element builds, nothing is rejected |
| QuizService.GenerateFallbackQuestions | backend/main/java/com/springpro/service/QuizService.java:118-149 | the two loops build exactly the fallback array |
| QuizService.FallbackQuestionsShape | backend/main/java/com/springpro/service/QuizService.java:122-148 | countMCQ + countSAQ entries (negative counts give none), MCQs first, each MCQ with four options and answer "A" |
| QuizService.FallbackQuestionsStore | backend/main/java/com/springpro/service/QuizService.java:67-113 | storing the fallback array never fails: MCQs with answer "A", SAQs with no answer |
| QuizService.CreateQuiz | backend/main/java/com/springpro/service/QuizService.java:43-116 | an unknown topic fails and changes nothing; otherwise the quiz is saved, then the questions from the generator or the fallback; a rejected question ends the call with its error |
| QuizService.StoreQuestions | backend/main/java/com/springpro/service/QuizService.java:71-113 | the saving loop appends exactly the rows of the fold and reports its rejection |
| QuizService.UpdateQuestion | backend/main/java/com/springpro/service/QuizService.java:179-189 | an unknown id fails; otherwise text, four options and answer are overwritten, and id, quiz and type are kept |
| QuizService.AssignEachCounts | backend/main/java/com/springpro/service/QuizService.java:203-211 | afterwards each listed student has the quiz, exactly once if they had none; others gain nothing; old rows stay |
| QuizService.AssignEachIdempotent | backend/main/java/com/springpro/service/QuizService.java:203-211 | assigning the same students again adds nothing |
| QuizService.AssignEachNoop | backend/main/java/com/springpro/service/QuizService.java:207 | assigning students who all have the quiz changes nothing |
| QuizService.KnownPrefix | backend/main/java/com/springpro/service/QuizService.java:203-205 | the length of the run of known students before the first unknown one |
| QuizService.AssignQuizToStudents | backend/main/java/com/springpro/service/QuizService.java:199-212 | an unknown quiz fails and changes nothing; otherwise the students before the first unknown one are assigned, and the call fails iff an unknown one exists |
| QuizService.AssignQuizToAllStudents | backend/main/java/com/springpro/service/QuizService.java:214-228 | an unknown quiz fails; otherwise every student is assigned once |
| TopicController.Slashed | backend/main/java/com/springpro/controller/TopicController.java:33 | no backslash remains |
| TopicController.NormalizePath | backend/main/java/com/springpro/controller/TopicController.java:26-55 | null iff the input is null; a null or empty path is returned unchanged; any other path comes back starting with "/uploads/" |
| TopicController.Rooted | backend/main/java/com/springpro/controller/TopicController.java:42-54 | whatever the cleaned path, the result starts with "/uploads/" |
| TopicController.RootedUploads | backend/main/java/com/springpro/controller/TopicController.java:46-47 | a path starting with "uploads/" only gains a leading "/" |
| TopicController.RootedOther | backend/main/java/com/springpro/controller/TopicController.java:49-54 | a path starting with neither "/uploads/" nor "uploads/" goes under "/uploads/": videos/ and pdfs/ paths as they are, others without their leading slashes |
| TopicController.NormalizeWithUploads | backend/main/java/com/springpro/controller/TopicController.java:33-48 | with "uploads/" present, the result is "/" + the suffix from its first occurrence, starts with "/uploads/" and has no backslash |
| TopicController.NormalizeWithoutUploads | backend/main/java/com/springpro/controller/TopicController.java:49-54 | otherwise videos/ and pdfs/ paths get "/uploads/" prefixed; any other path has its leading slashes stripped, then "/uploads/" prefixed; always without a backslash |
| TopicController.NormalizeFixesCanonical | backend/main/java/com/springpro/controller/TopicController.java:37-45 | a "/uploads/..." path without backslashes is left as it is |
| TopicController.NormalizeIdempotent | backend/main/java/com/springpro/controller/TopicController.java:26-55 | normalising twice equals normalising once, so re-normalising stored values on every read is harmless |
| TopicController.SavedUrlIsCanonical | backend/main/java/com/springpro/controller/TopicController.java:131-132 | a URL returned by the storage service is already canonical |
| TopicController.NormalizeUrls | backend/main/java/com/springpro/controller/TopicController.java:57-75 | every listed topic's video and pdf URL is replaced by its normalised form, and nothing else changes |
| TopicController.ReplaceMedia | backend/main/java/com/springpro/controller/TopicController.java:126-142 | without an upload the files are untouched; with one, the new file is stored |
| TopicController.MediaAfter | backend/main/java/com/springpro/controller/TopicController.java:126-142 | without an upload the existing URL is kept |
| TopicController.UpdateMedia | backend/main/java/com/springpro/controller/TopicController.java:126-142 | one media slot: the URL becomes the one `MediaAfter` gives, and the store changes as `ReplaceMedia` says |
| TopicController.UpdateTopic | backend/main/java/com/springpro/controller/TopicController.java:113-145 | an unknown id fails; otherwise title and link are overwritten, each supplied file deletes the old one and stores a new normalised URL, and a missing file keeps its URL |
| FileStorage.Extension | backend/main/java/com/springpro/service/FileStorageService.java:28-31 | empty iff there is no name or no '.'; otherwise the suffix from the last '.', containing no other '.' |
| FileStorage.SavedUrl | backend/main/java/com/springpro/service/FileStorageService.java:39 | the returned URL starts with "/uploads/", and what follows it is type + "/" + filename, which is what the delete path strips it back to |
| FileStorage.Relative | backend/main/java/com/springpro/service/FileStorageService.java:45 | a leading "/uploads/" is stripped, and only when present |
| FileStorage.DeletedPath | backend/main/java/com/springpro/service/FileStorageService.java:42-48 | nothing is deleted for a null or empty URL; otherwise the path is `Paths.get(uploadDir, relative)`, with runs of '/' collapsed and no trailing '/' |
| FileStorage.DeleteFindsSavedFile | backend/main/java/com/springpro/service/FileStorageService.java:20-49 | deleting a returned URL removes exactly the path the file was written to: `Paths.get(dir, type + "/" + name)` and `Paths.get(dir, type).resolve(name)` give the same path |
| FileStorage.LeadingSlashFindsSavedFile | backend/main/java/com/springpro/service/FileStorageService.java:42-48 | a stored URL without the "/uploads" part, "/type/name" (the form `normalizePath` repairs), still deletes the saved file, because `Paths.get` collapses the doubled '/' |
| FileStorage.StoredNameKeepsExtension | backend/main/java/com/springpro/service/FileStorageService.java:29-32 | the stored name, UUID + extension, has the original's extension |
| FileStorage.FileStorageService.SaveFile | backend/main/java/com/springpro/service/FileStorageService.java:20-40 | returns the URL of uuid + extension and adds that file under uploadDir/type |
| FileStorage.FileStorageService.DeleteFile | backend/main/java/com/springpro/service/FileStorageService.java:42-49 | removes the normalised path `Paths.get(uploadDir, relative)` and nothing else; a null or empty URL changes nothing |
| FileStorage.SaveThenDelete | backend/main/java/com/springpro/service/FileStorageService.java:20-49 | saving then deleting the returned URL leaves the stored files without the saved one |
| LegacyFileStorage.SavedPath | src/main/java/com/springpro/service/FileStorageService.java:38 | the returned path is non-empty and has no leading slash when the type has none |
| LegacyFileStorage.DeletedPath | src/main/java/com/springpro/service/FileStorageService.java:41-46 | nothing is deleted for a null or empty URL; otherwise the path is `Paths.get(uploadDir, url)`, with runs of '/' collapsed and no trailing '/' |
| LegacyFileStorage.DeleteFindsSavedFile | src/main/java/com/springpro/service/FileStorageService.java:20-46 | deleting a returned path removes exactly the path written to, the `resolve`d one |
| LegacyFileStorage.BackendDeletesLegacyPath | src/main/java/com/springpro/service/FileStorageService.java:38 | the other service's delete resolves a path returned by this one to the same file |
| LegacyFileStorage.FileStorageService.SaveFile | src/main/java/com/springpro/service/FileStorageService.java:20-39 | returns type/uuid+extension and adds that file |
| LegacyFileStorage.FileStorageService.DeleteFile | src/main/java/com/springpro/service/FileStorageService.java:41-46 | removes the normalised path `Paths.get(uploadDir, url)` and nothing else; a null or empty URL changes nothing |
| JavaPaths.Normalize | backend/main/java/com/springpro/service/FileStorageService.java:46 | the path text has no "//", is empty only for empty input, keeps the first character, and ends in '/' only when it is "/" |
| JavaPaths.PathsGet | backend/main/java/com/springpro/service/FileStorageService.java:22 | the path has no "//" and no trailing '/' (unless it is "/"), and is empty iff both parts are |
| JavaPaths.Resolve | backend/main/java/com/springpro/service/FileStorageService.java:35 | an absolute argument replaces the base, an empty one keeps it, and a relative one is appended after one '/' |
| JavaPaths.JoinedEqualsResolved | backend/main/java/com/springpro/service/FileStorageService.java:35 | for a non-empty directory, a type segment without '/' and a relative name, `Paths.get(d, t + "/" + f)` equals `Paths.get(d, t).resolve(f)` |
| JavaPaths.LeadingSlashIgnored | src/main/java/com/springpro/service/FileStorageService.java:43 | one leading '/' on the second part of `Paths.get` changes nothing |
| JavaPaths.PlainJoin | backend/main/java/com/springpro/service/FileStorageService.java:46 | on parts that are already normalised, `Paths.get` is the plain '/'-join |
| TopicManagement.OriginIsAbsolute | frontend/src/pages/TopicManagement.jsx:63 | the origin prefix makes any URL absolute |
| TopicManagement.BuildAssetUrlCases | frontend/src/pages/TopicManagement.jsx:58-64 | an absolute http(s) URL, in any case, is kept; a relative one gets the origin and one leading "/" if it lacked one |
| TopicManagement.BuildAssetUrlIdempotent | frontend/src/pages/TopicManagement.jsx:58-64 | building twice equals building once |
| TopicManagement.TopicForm.Edit | frontend/src/pages/TopicManagement.jsx:155-163 | the form takes the title and the link (default "") with both files cleared, and the topic id is being edited |
| TopicManagement.TopicForm.Reset | frontend/src/pages/TopicManagement.jsx:272-274 | cancel and a successful save clear the form and the editing id |
| TopicManagement.TopicForm.Request | frontend/src/pages/TopicManagement.jsx:101-119 | PUT to the editing id iff it is truthy, else POST; the title always goes, the link only when non-empty, and files only when chosen |
| TopicManagement.EditThenSave | frontend/src/pages/TopicManagement.jsx:101-163 | editing a topic with a non-zero id and saving sends a PUT for that id, with no files |
| QuizTaker.JsRem | frontend/src/components/QuizTaker.jsx:54 | JavaScript `%`: Euclidean on non-negative operands, in (-b, 0] for negative ones |
| QuizTaker.NatToStringRoundTrip | frontend/src/components/QuizTaker.jsx:55 | the decimal text of n reads back as n |
| QuizTaker.TwoDigits | frontend/src/components/QuizTaker.jsx:55 | `padStart(2, '0')` of a seconds value below 60 is its two decimal digits |
| QuizTaker.FormatTimeParts | frontend/src/components/QuizTaker.jsx:52-56 | for s >= 0 the text is (s div 60) + ":" + two digits reading s mod 60 |
| QuizTaker.QuizSession.constructor | frontend/src/components/QuizTaker.jsx:5-8 | index 0, no answers, timeLimit × 60 seconds remaining, started now |
| QuizTaker.QuizSession.SelectAnswer | frontend/src/components/QuizTaker.jsx:23-28 | only the question's entry is set (overwritten if present); the others are unchanged |
| QuizTaker.QuizSession.ChooseOption | frontend/src/components/QuizTaker.jsx:81-85 | clicking an option records it for the current question and keeps the answers keyed by question ids |
| QuizTaker.QuizSession.Next | frontend/src/components/QuizTaker.jsx:30-34 | the index advances only below the last question and never passes it |
| QuizTaker.QuizSession.Previous | frontend/src/components/QuizTaker.jsx:36-40 | the index goes back only above 0 and never below it |
| QuizTaker.QuizSession.SubmissionAt | frontend/src/components/QuizTaker.jsx:42-50 | the submission carries the quiz id, the answers unchanged and the whole seconds elapsed |
| QuizTaker.SubmitEnabledIffAllAnswered | frontend/src/components/QuizTaker.jsx:120 | with distinct question ids, the answered count equals the question count iff every question is answered |
| StudentCrud.Added | frontend/src/StudentCRUDExample.jsx:34-39 | exactly one record is appended at the end, numbered length + 1 |
| StudentCrud.UpdatedById | frontend/src/StudentCRUDExample.jsx:52-56 | records with the edited id take the form's name and email, and the others are unchanged |
| StudentCrud.WithoutId | frontend/src/StudentCRUDExample.jsx:88 | the result keeps exactly the records without the id |
| StudentCrud.WithoutIdAppend | frontend/src/StudentCRUDExample.jsx:88 | filtering distributes over concatenation, so the kept records keep their order |
| StudentCrud.WithoutAbsentId | frontend/src/StudentCRUDExample.jsx:88 | deleting an id no record has is a no-op |
| StudentCrud.WithoutIdLength | frontend/src/StudentCRUDExample.jsx:88 | deleting removes as many records as carry the id |
| StudentCrud.DeleteThenAddRepeatsId | frontend/src/StudentCRUDExample.jsx:36 | deleting student 1 from the sample list and adding one gives two records numbered 2 |
| StudentCrud.StudentList.constructor | frontend/src/StudentCRUDExample.jsx:13-30 | the two sample students, with nobody being edited |
| StudentCrud.StudentList.AddStudent | frontend/src/StudentCRUDExample.jsx:34-39 | the list becomes the appended list |
| StudentCrud.StudentList.UpdateStudent | frontend/src/StudentCRUDExample.jsx:51-58 | the list becomes the merged list, and the editing selection is cleared |
| StudentCrud.StudentList.Submit | frontend/src/StudentCRUDExample.jsx:70-76 | while editing it updates, otherwise it adds |
| StudentCrud.StudentList.Edit | frontend/src/StudentCRUDExample.jsx:79-84 | the student becomes the one being edited |
| StudentCrud.StudentList.Delete | frontend/src/StudentCRUDExample.jsx:87-96 | the list becomes the filtered list |
| StudentCrud.StudentList.Cancel | frontend/src/StudentCRUDExample.jsx:99-101 | the editing selection is cleared |
| Validation.SignupEmailTestIsShape | frontend/src/pages/Signup.jsx:41 | `/\S+@\S+\.\S+/.test(s)` iff s has a non-space, '@', a non-space, '.', a non-space in a row |
| Validation.LoginEmailTestIsShape | frontend/src/pages/Login.jsx:33 | `/\S+@\S+\.\S/.test(s)` iff s has that same shape |
| Validation.LoginAndSignupEmailTestsAgree | frontend/src/pages/Login.jsx:33 | the two email patterns accept exactly the same strings |
| Validation.ClearError | frontend/src/pages/Signup.jsx:24-26 | the edited field's error becomes "" if present; the other errors are unchanged |
| Validation.RedirectFor | frontend/src/pages/Signup.jsx:84-93 | STUDENT, INSTRUCTOR and ADMIN go to their dashboards, everything else to /dashboard |
| Signup.WithField | frontend/src/pages/Signup.jsx:18-23 | only the named field of the form changes |
| Signup.Validate | frontend/src/pages/Signup.jsx:30-58 | each field has an error iff its check fails, with the first failing check's message |
| Signup.ValidateEmptyIff | frontend/src/pages/Signup.jsx:63-67 | no errors iff name >= 2 characters, email of the right shape, password >= 6 characters and a matching confirmation |
| Signup.SignupPage.Change | frontend/src/pages/Signup.jsx:18-28 | the field is set, its error cleared and the API error reset |
| Signup.SignupPage.Submit | frontend/src/pages/Signup.jsx:60-99 | registration is attempted iff there are no errors; success navigates by the returned role, else the chosen one; failure sets the API error |
| Login.WithField | frontend/src/pages/Login.jsx:16-21 | only the named field of the form changes |
| Login.Validate | frontend/src/pages/Login.jsx:28-48 | each field has an error iff its check fails, with the first failing check's message; a role is required |
| Login.ValidateEmptyIff | frontend/src/pages/Login.jsx:53-57 | no errors iff the email has the right shape, the password >= 6 characters and a role is chosen; such an email passes Signup's check |
| Login.LoginPage.Change | frontend/src/pages/Login.jsx:16-26 | the field is set, its error cleared and the API error reset |
| Login.LoginPage.Submit | frontend/src/pages/Login.jsx:50-91 | login is attempted iff there are no errors; it navigates only when the account role equals the selected one, and a mismatch sets the mismatch error |
| StudentForm.Prefill | frontend/src/StudentForm.jsx:11-23 | the edited student's name and email, each defaulting to "", or an empty form |
| StudentForm.WithField | frontend/src/StudentForm.jsx:44-49 | only the named field changes |
| StudentForm.Validate | frontend/src/StudentForm.jsx:25-42 | name error iff the trimmed name is empty; email error iff the trimmed email is empty or has the wrong shape, with the matching message |
| StudentForm.ShapedIsNotBlank | frontend/src/StudentForm.jsx:32-36 | an email of the right shape is never blank |
| StudentForm.ValidateEmptyIff | frontend/src/StudentForm.jsx:41 | valid iff the name is not blank and the email has the right shape |
| StudentForm.StudentFormState.SetEditing | frontend/src/StudentForm.jsx:11-23 | choosing a student refills the form |
| StudentForm.StudentFormState.Change | frontend/src/StudentForm.jsx:44-57 | the field is set and its error cleared |
| StudentForm.StudentFormState.Submit | frontend/src/StudentForm.jsx:59-72 | the errors are recomputed; the form is submitted iff there are none; it resets only when creating |
| SubjectForm.Prefill | frontend/src/components/SubjectForm.jsx:11-23 | name and description of the edited subject, each defaulting to "" |
| SubjectForm.WithField | frontend/src/components/SubjectForm.jsx:40-45 | only the named field changes |
| SubjectForm.Validate | frontend/src/components/SubjectForm.jsx:25-38 | name error iff the trimmed name is empty; description error iff the trimmed description is empty |
| SubjectForm.ValidateEmptyIff | frontend/src/components/SubjectForm.jsx:37 | valid iff neither name nor description is blank |
| SubjectForm.SubjectFormState.SetEditing | frontend/src/components/SubjectForm.jsx:11-23 | choosing a subject refills the form |
| SubjectForm.SubjectFormState.Change | frontend/src/components/SubjectForm.jsx:40-52 | the field is set and its error cleared |
| SubjectForm.SubjectFormState.Submit | frontend/src/components/SubjectForm.jsx:54-66 | submitted iff valid; reset only when creating |
| TopicForm.DefaultForm | frontend/src/components/TopicForm.jsx:23-30 | the first subject's id, or none when there are no subjects; empty text and no files |
| TopicForm.Prefill | frontend/src/components/TopicForm.jsx:14-32 | editing copies subject, title and link and clears the files; otherwise the default form |
| TopicForm.Validate | frontend/src/components/TopicForm.jsx:34-47 | subject error iff no subject; title error iff the trimmed title is empty |
| TopicForm.ValidateEmptyIff | frontend/src/components/TopicForm.jsx:46 | valid iff a subject is chosen and the title is not blank |
| TopicForm.TopicFormState.SetProps | frontend/src/components/TopicForm.jsx:14-32 | new props refill the form |
| TopicForm.TopicFormState.ChangeText | frontend/src/components/TopicForm.jsx:49-61 | the text field is set and its error cleared |
| TopicForm.TopicFormState.ChooseSubject | frontend/src/components/TopicForm.jsx:49-61 | the subject is set and its error cleared |
| TopicForm.TopicFormState.ChooseFile | frontend/src/components/TopicForm.jsx:63-71 | a chosen file is stored in its field; no file changes nothing |
| TopicForm.TopicFormState.Submit | frontend/src/components/TopicForm.jsx:73-93 | submitted iff valid; after a create the form returns to the default, with no files |
| CourseForm.NewForm | frontend/src/components/CourseForm.jsx:19-26 | an empty title, MEDIUM difficulty and the stored user id |
| CourseForm.Prefill | frontend/src/components/CourseForm.jsx:12-28 | editing copies the title and instructor, and the difficulty defaults to MEDIUM; otherwise a new form; the difficulty is never empty |
| CourseForm.Validate | frontend/src/components/CourseForm.jsx:30-43 | title error iff the trimmed title is empty; instructor error iff no instructor id |
| CourseForm.ValidateEmptyIff | frontend/src/components/CourseForm.jsx:42 | valid iff the title is not blank and an instructor is set |
| CourseForm.CourseFormState.SetEditing | frontend/src/components/CourseForm.jsx:12-28 | choosing a course refills the form |
| CourseForm.CourseFormState.ChangeText | frontend/src/components/CourseForm.jsx:45-57 | the field is set and its error cleared |
| CourseForm.CourseFormState.Submit | frontend/src/components/CourseForm.jsx:59-73 | submitted iff valid; after a create, title and difficulty reset and the instructor is the stored user id |
| JsNumber.Add | frontend/src/pages/InstructorStudentPerformance.jsx:61 | a sum is NaN iff an operand is, else the real sum |
| JsText.TrimStartShape | frontend/src/StudentForm.jsx:28 | `trimStart` removes exactly a blank prefix, leaving a suffix that is empty or starts with a non-space |
| JsText.TrimEndShape | frontend/src/StudentForm.jsx:28 | `trimEnd` removes exactly a blank suffix, leaving a prefix that is empty or ends with a non-space |
| JsText.TrimEmptyIffBlank | frontend/src/StudentForm.jsx:28 | `s.trim()` is empty iff s consists of whitespace only |
| JsText.JavaTrim | backend/main/java/com/springpro/service/QuizService.java:92 | Java's `trim` result is no longer than its input, is empty or starts and ends above U+0020, and leaves such a string unchanged |
| JsText.UpperAscii | backend/main/java/com/springpro/service/QuizService.java:92 | same length, each character upper-cased if it is an ASCII letter |
| JsText.UpperEqualsMeans | backend/main/java/com/springpro/service/QuizService.java:81 | comparing character by character after upper-casing agrees with `toUpperCase().equals` |
| JsText.LastIndexOf | backend/main/java/com/springpro/service/FileStorageService.java:30 | the position of the last occurrence of the character, absent iff it does not occur |
| JsText.ReplaceChar | backend/main/java/com/springpro/controller/TopicController.java:33 | `replace` of one character: every occurrence is replaced, everything else kept |
| JsText.StripLeadingSlashes | backend/main/java/com/springpro/controller/TopicController.java:54 | `replaceFirst("^/+", "")`: the removed prefix is all slashes and the rest does not start with one |
| JsText.NatToString | frontend/src/components/QuizTaker.jsx:55 | the decimal text is non-empty and made only of digits |
| JsText.PadStart2 | frontend/src/components/QuizTaker.jsx:55 | `padStart(2, '0')` keeps texts of length 2 or more, and otherwise left-pads them to exactly two characters ending with the text |
| StudentCrud.Merge | frontend/src/StudentCRUDExample.jsx:54 | the record takes name and email from the form and keeps its id, course and enrollment date |
| JsText.IndexOf | backend/main/java/com/springpro/controller/TopicController.java:37 | `indexOf`: the first position where the pattern occurs, absent iff it occurs nowhere |
| QuizResult.Percentage | frontend/src/components/QuizResult.jsx:8-22 | a total of 0 gives 0; the percentage is NaN exactly when the total is NaN and the correct count is a number; a non-numeric count with a non-zero total and a present score takes the score fallback |
| QuizResult.ScoreColor | frontend/src/components/QuizResult.jsx:24-29 | one of the four colours; a NaN percentage is red |
| QuizResult.StatusLabel | frontend/src/components/QuizResult.jsx:31-37 | one of the five labels; a NaN percentage is labelled Top 1% / Excellent |
| QuizResult.ScoreMessage | frontend/src/components/QuizResult.jsx:41-47 | one of the five messages; a NaN percentage gets "Needs improvement" |
| QuizResult.NextDifficulty | frontend/src/components/QuizResult.jsx:49-54 | EASY exactly below 50; a NaN percentage maps to ADVANCED |
| QuizResult.DisplayedPercentage | frontend/src/components/QuizResult.jsx:66 | a finite percentage is shown as it is, NaN as 0 |
| QuizResult.IncorrectShown | frontend/src/components/QuizResult.jsx:86 | the incorrect count is shown exactly when the total is a non-zero number |
| Progression.AfterSubject | frontend/src/utils/progression.js:34-83 | the subject step never yields TOPIC, and its ERROR and COMPLETED results carry the fixed messages |
| Sorting.SortBy | frontend/src/utils/progression.js:20 | sorting keeps the length |
| Sorting.NextAfter | frontend/src/utils/progression.js:20-25 | a result is an element of the list whose id is at least the current one |
| Performance.BucketLabel | frontend/src/pages/Performance.jsx:38-44 | one of the five labels, "Low / Below Average" exactly below 50 |
| Performance.ListedPercentage | frontend/src/pages/Performance.jsx:117-120 | with numeric counts 0 <= score <= total, total > 0, the listed percentage is a whole number in [0, 100] |
| Performance.TopicContribution | frontend/src/pages/Performance.jsx:169-172 | with a numeric score and a positive numeric total, 100 score / total; without a positive total, the stored percentage when finite, else 0 |
| Performance.TrendPercentage | frontend/src/pages/Performance.jsx:250-252 | a finite trend percentage is whole; with a numeric score and a positive numeric total it is round(100 score / total) |
| InstructorPerformance.GetBucket | frontend/src/pages/InstructorStudentPerformance.jsx:48-53 | one of the four (label, colour) pairs, Low exactly below 50 |
| InstructorPerformance.AvgScore | frontend/src/pages/InstructorStudentPerformance.jsx:58-62 | a finite reported average is used as it is; a computed finite one is whole |
| InstructorPerformance.Accuracy | frontend/src/pages/InstructorStudentPerformance.jsx:63-70 | a finite reported accuracy is used as it is; a computed finite one is whole |
| InstructorPerformance.Highest | frontend/src/pages/InstructorStudentPerformance.jsx:71 | the highest score is a number exactly when every raw score is, and then it is at least 0 |
| InstructorPerformance.Level | frontend/src/pages/InstructorStudentPerformance.jsx:107 | one of the four levels, Beginner exactly below 50 |
| ProgressCard.BackgroundColor | frontend/src/components/ProgressCard.jsx:5-9 | one of the three colours, green exactly from 85 |
| StudentQuizService.Accuracy | backend/main/java/com/springpro/service/StudentQuizService.java:123 | 0 for no questions; otherwise the integer quotient: accuracy × total <= 100 score < (accuracy + 1) × total |
| QuizService.NormalizeAnswer | backend/main/java/com/springpro/service/QuizService.java:91-100 | no longer than the trimmed answer, and empty exactly when the trimmed answer is |
| QuizService.AssignEach | backend/main/java/com/springpro/service/QuizService.java:203-211 | the old rows stay as a prefix, at most one row is added per listed student, and every added row assigns the quiz to a listed student |
| QuizService.FallbackQuestions | backend/main/java/com/springpro/service/QuizService.java:118-149 | max(0, countMCQ) + max(0, countSAQ) questions, the MCQs before the SAQs |
| TopicManagement.BuildAssetUrl | frontend/src/pages/TopicManagement.jsx:58-64 | "" exactly for a null or empty URL; any other result is an absolute http(s) URL |
| QuizTaker.FormatTime | frontend/src/components/QuizTaker.jsx:52-56 | for s >= 0 the text has digits, a colon, then exactly two digits |
| QuizTaker.QuizSession.SubmitEnabled | frontend/src/components/QuizTaker.jsx:120 | with distinct question ids and answers only for them, Submit is enabled exactly when every question is answered |
| Grouping.GroupAll | frontend/src/pages/Performance.jsx:165-174 | no keys for no items, otherwise between one key and one key per item |
| Validation.SignupEmailTest | frontend/src/pages/Signup.jsx:41 | a passing email contains an "@" and a "." and has at least five characters |
| Validation.LoginEmailTest | frontend/src/pages/Login.jsx:33 | a passing email contains an "@" and a "." and has at least five characters |
| Login.RoleMismatch | frontend/src/pages/Login.jsx:70 | the message is the fixed prefix, the account role's text, then ", not " and the selected role with a full stop |
| Signup.UserRole | frontend/src/pages/Signup.jsx:81 | the answered role or the chosen one, and non-empty exactly when one of them is |
| JsText.JavaTrimSlice | backend/main/java/com/springpro/service/QuizService.java:92 | Java's `trim` keeps one contiguous slice of the input, with only characters at most U+0020 around it |

## Left out

- Network, storage and timers are left out. Fetching, `localStorage`, the `setInterval` countdown and the auto-submit when time runs out are not modelled. The current time and the stored user id are parameters.
- The AI generator call (`geminiService.generateQuiz`) is not modelled. Its result is a parameter, with `None` for a failure.
- `StudentQuizService.SubmitAssignedQuiz` takes the attempt time as a parameter.
- `StudentQuizService.SubmitAssignedQuiz`: the submitted answers are a map, which is never null. In the source a request body without `answers` makes `submission.getAnswers().get(...)` throw a NullPointerException as soon as the quiz has at least one question (`backend/main/java/com/springpro/service/StudentQuizService.java:86`). That failure is not modelled, so the contract's "fails iff unassigned or the student is unknown" does not cover it.
- Directory creation, file copying and UUID generation are effects on a set of paths, with the UUID as a parameter.
- `JavaPaths`: a path is its text after `UnixPath` normalisation. "." and ".." segments, symbolic links and resolution against the working directory are not modelled. Neither is the `InvalidPathException` thrown for a NUL character.
- `FileStorage.DeleteFindsSavedFile`, `FileStorage.SaveThenDelete` and `LegacyFileStorage.DeleteFindsSavedFile` are proved for a non-empty upload directory, a type without '/' and a file name not starting with '/'. The source uses "./uploads", "videos" or "pdfs", and UUID names, which meet these conditions.
- Drawing charts (canvas geometry) and `getLevelColor` are left out.
- The QuizTaker progress bar is left out. So are loading flags, alerts and `showForm`.
- Floating-point rounding error, infinities and Java `int` overflow are left out. Numbers are exact reals or unbounded integers.
- `Object.keys` order is modelled as insertion order, which JavaScript uses for non-numeric keys. Topic names that look like integers would be listed first in JavaScript; that is not modelled.
- `Grouping.Group`, `Performance.TopicRows` and `InstructorPerformance.TopicRows`: topic labels that name properties of `Object.prototype` are not modelled; the model's dictionary is a plain map, so every label gets its own row. In the source, `grouped[topic] || {...}` reads the inherited function for "constructor", "toString", "valueOf" or "hasOwnProperty", which is truthy, so no fresh record is made and the `+=` gives a NaN total and count. The student page then lists that topic with average 0, because a NaN count is falsy (`frontend/src/pages/Performance.jsx:175`); the instructor page lists it with attempts NaN and average 0 (`frontend/src/pages/InstructorStudentPerformance.jsx:83`). A "__proto__" label is taken by the prototype setter: no row for it appears in `Object.keys`, so `Performance.EveryTopicHasRow`, `Performance.TopicCountsCoverAttempts` and `InstructorPerformance.TopicCountsCoverAttempts` do not describe the source for that label, and the NaN total and count are written onto `Object.prototype`.
- `new Date(...)` parsing is not modelled. Attempt dates are integer timestamps, absent when missing or empty.
- The select boxes store strings in JavaScript. Subject ids and instructor ids are modelled as `Option<int>`, with `None` for unset. A falsy id of 0 is not modelled.
- `TopicForm.TopicFormState.ChangeText`: the subject id goes through `ChooseSubject` instead.
- `CourseForm.CourseFormState.ChangeText`: the instructor id is not edited through it.
- `TopicManagement` `handleChange`/`handleFileChange` field updates are left out. The saved request is modelled as `Request`.
- `toUpperCase` is modelled on ASCII letters only. Java's and JavaScript's full Unicode case mapping is not modelled.
- Enum parsing is left out. `QuestionType` is assumed to have exactly MCQ and SAQ, and `valueOf` of other text is a rejection.
- `createTopic`, `deleteTopic`, `deleteQuiz`, `createQuestion` and the other pure repository delegations are outside the modelled core.
- `QuizService.UpdateQuestion` does not model JPA's dirty-checking. The saved row is written back in place.
- `StudentCrud.StudentList.AddStudent` keeps the id numbering as written. The collision this causes after a delete is exhibited by `StudentCrud.DeleteThenAddRepeatsId`.
- `TopicController.NormalizeUrls` works on the fetched list. `findAll`/`findBySubjectId` themselves are not modelled.
- `QuizTaker.QuizSession.constructor` takes `quiz.timeLimit` as an integer number of minutes.
- `Signup.Validate` and `Login.Validate` count characters. JavaScript's `.length` counts UTF-16 code units, so a character outside the Basic Multilingual Plane counts once here and twice there.
- `QuizService.ParseType`: org.json's `optString("type", "MCQ")` also turns a non-string value, such as a number or a boolean, into its text. The model's type field is text or absent, so such values are not modelled.
- `Login.RoleText`: a template literal writes a stored `null` role as "null". The model has one `None` for a missing role, written "undefined", so a null role is not told apart.
- `TopicManagement.TopicForm.Request` has no `subjectId` part. The subject id the page appends to every request is not modelled.
