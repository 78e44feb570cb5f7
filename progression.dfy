/**
 * What a learner should study after finishing a topic: the next topic of the
 * same subject by ascending id, else the next subject of the same course,
 * else the next course, else completion. The fetched collections are inputs;
 * a failed fetch or an unusable response is `None`, and every failure is
 * caught and reported as `Failure`.
 */
module Progression {
  import opened Wrappers
  import opened Sorting

  datatype Topic = Topic(id: int, title: string, subjectId: int)
  datatype Subject = Subject(id: int, name: string, courseId: int)
  datatype Course = Course(id: int, title: string)

  /** The answers of the backend that the walk reads; `None` is a failed request. */
  datatype Backend = Backend(
    allTopics: Option<seq<Topic>>,
    topicsOfSubject: int -> Option<seq<Topic>>,
    allSubjects: Option<seq<Subject>>,
    subjectsOfCourse: int -> Option<seq<Subject>>,
    allCourses: Option<seq<Course>>)

  datatype Target =
    | TopicTarget(id: int, title: string, subjectId: int)
    | SubjectTarget(id: int, title: string, courseId: int)
    | CourseTarget(id: int, title: string)
    | Completed(message: string)
    | Failure(message: string)

  const CompletedMessage := "Congratulations! You have completed all courses, subjects, and topics."
  const FailureMessage := "Failed to determine next steps."

  function TopicId(t: Topic): int { t.id }
  function SubjectId(s: Subject): int { s.id }
  function CourseId(c: Course): int { c.id }

  /** `k` is listed in `s` and some listed key is larger: the sorted list has an element after `k`. */
  ghost predicate HasLater<T>(s: seq<T>, key: T -> int, k: int) {
    (exists x :: x in s && key(x) == k) && (exists z :: z in s && key(z) > k)
  }

  /** The whole walk, starting from the topic just finished. */
  function FindNextTarget(b: Backend, currentTopicId: int): (r: Target)
    ensures r.Failure? ==> r.message == FailureMessage
    ensures r.Completed? ==> r.message == CompletedMessage
  {
    if b.allTopics.None? then Failure(FailureMessage)
    else
      match FindByKey(b.allTopics.value, TopicId, currentTopicId)
      case None => Failure(FailureMessage)
      case Some(current) =>
        var subjectTopics := b.topicsOfSubject(current.subjectId);
        if subjectTopics.None? then Failure(FailureMessage)
        else
          match NextAfter(subjectTopics.value, TopicId, currentTopicId)
          case Some(t) => TopicTarget(t.id, t.title, current.subjectId)
          case None => AfterSubject(b, current.subjectId)
  }

  /** Steps 3 and 4: the topic was the last of its subject. */
  function AfterSubject(b: Backend, currentSubjectId: int): (r: Target)
    ensures !r.TopicTarget?
    ensures r.Failure? ==> r.message == FailureMessage
    ensures r.Completed? ==> r.message == CompletedMessage
  {
    if b.allSubjects.None? then Failure(FailureMessage)
    else
      match FindByKey(b.allSubjects.value, SubjectId, currentSubjectId)
      case None => Failure(FailureMessage)
      case Some(subject) =>
        var courseSubjects := b.subjectsOfCourse(subject.courseId);
        if courseSubjects.None? then Failure(FailureMessage)
        else
          match NextAfter(courseSubjects.value, SubjectId, currentSubjectId)
          case Some(s) => SubjectTarget(s.id, s.name, subject.courseId)
          case None => AfterCourse(b, subject.courseId)
  }

  /** Steps 4 and 5: the subject was the last of its course. */
  function AfterCourse(b: Backend, currentCourseId: int): (r: Target)
    ensures r.CourseTarget? || r.Completed? || r.Failure?
    ensures r.Failure? <==> b.allCourses.None?
    ensures r.Failure? ==> r.message == FailureMessage
    ensures r.Completed? ==> r.message == CompletedMessage
  {
    if b.allCourses.None? then Failure(FailureMessage)
    else
      match NextAfter(b.allCourses.value, CourseId, currentCourseId)
      case Some(c) => CourseTarget(c.id, c.title)
      case None => Completed(CompletedMessage)
  }

  /** A topic id missing from the full list is reported as a failure, not thrown. */
  lemma UnknownTopicFails(b: Backend, currentTopicId: int)
    requires b.allTopics.Some?
    requires forall t :: t in b.allTopics.value ==> t.id != currentTopicId
    ensures FindNextTarget(b, currentTopicId) == Failure(FailureMessage)
  {
  }

  /** A failed first request fails the whole walk. */
  lemma FailedTopicFetchFails(b: Backend, currentTopicId: int)
    requires b.allTopics.None?
    ensures FindNextTarget(b, currentTopicId).Failure?
  {
  }

  /**
   * Step 2. With distinct topic ids in the subject, the result is a topic
   * exactly when the current topic is listed there and some listed id is
   * larger; it is then the topic with the smallest larger id, tagged with
   * the current topic's subject.
   */
  lemma NextTopicInSubject(b: Backend, currentTopicId: int, current: Topic, subjectTopics: seq<Topic>)
    requires b.allTopics.Some? && FindByKey(b.allTopics.value, TopicId, currentTopicId) == Some(current)
    requires b.topicsOfSubject(current.subjectId) == Some(subjectTopics)
    requires DistinctKeys(subjectTopics, TopicId)
    ensures FindNextTarget(b, currentTopicId).TopicTarget? <==> HasLater(subjectTopics, TopicId, currentTopicId)
    ensures FindNextTarget(b, currentTopicId).TopicTarget? ==>
              exists t :: IsSuccessor(subjectTopics, TopicId, currentTopicId, t) &&
                FindNextTarget(b, currentTopicId) == TopicTarget(t.id, t.title, current.subjectId)
    ensures !FindNextTarget(b, currentTopicId).TopicTarget? ==>
              FindNextTarget(b, currentTopicId) == AfterSubject(b, current.subjectId)
  {
    NextAfterIsSuccessor(subjectTopics, TopicId, currentTopicId);
    var n := NextAfter(subjectTopics, TopicId, currentTopicId);
    if n.Some? {
      assert IsSuccessor(subjectTopics, TopicId, currentTopicId, n.value);
    } else {
      assert FindNextTarget(b, currentTopicId) == AfterSubject(b, current.subjectId);
    }
  }

  /**
   * Step 3. With distinct subject ids in the course, the result is a subject
   * exactly when the current subject is listed in its course and a larger id
   * is listed; it is then the one with the smallest larger id, tagged with
   * the current subject's course.
   */
  lemma NextSubjectInCourse(b: Backend, currentSubjectId: int, subject: Subject, courseSubjects: seq<Subject>)
    requires b.allSubjects.Some? && FindByKey(b.allSubjects.value, SubjectId, currentSubjectId) == Some(subject)
    requires b.subjectsOfCourse(subject.courseId) == Some(courseSubjects)
    requires DistinctKeys(courseSubjects, SubjectId)
    ensures AfterSubject(b, currentSubjectId).SubjectTarget? <==> HasLater(courseSubjects, SubjectId, currentSubjectId)
    ensures AfterSubject(b, currentSubjectId).SubjectTarget? ==>
              exists s :: IsSuccessor(courseSubjects, SubjectId, currentSubjectId, s) &&
                AfterSubject(b, currentSubjectId) == SubjectTarget(s.id, s.name, subject.courseId)
    ensures !AfterSubject(b, currentSubjectId).SubjectTarget? ==>
              AfterSubject(b, currentSubjectId) == AfterCourse(b, subject.courseId)
  {
    NextAfterIsSuccessor(courseSubjects, SubjectId, currentSubjectId);
    var n := NextAfter(courseSubjects, SubjectId, currentSubjectId);
    if n.Some? {
      assert IsSuccessor(courseSubjects, SubjectId, currentSubjectId, n.value);
    }
  }

  /** A subject id missing from the full subject list is a failure. */
  lemma UnknownSubjectFails(b: Backend, currentSubjectId: int)
    requires b.allSubjects.Some?
    requires forall s :: s in b.allSubjects.value ==> s.id != currentSubjectId
    ensures AfterSubject(b, currentSubjectId) == Failure(FailureMessage)
  {
  }

  /**
   * Steps 4 and 5. With distinct course ids, the result is a course exactly
   * when the current course is listed and a larger id exists, namely the one
   * with the smallest larger id; otherwise everything is completed. A
   * current course missing from the list also counts as completed.
   */
  lemma NextCourseOrCompleted(b: Backend, currentCourseId: int, courses: seq<Course>)
    requires b.allCourses == Some(courses) && DistinctKeys(courses, CourseId)
    ensures AfterCourse(b, currentCourseId).CourseTarget? <==> HasLater(courses, CourseId, currentCourseId)
    ensures AfterCourse(b, currentCourseId).CourseTarget? ==>
              exists c :: IsSuccessor(courses, CourseId, currentCourseId, c) &&
                AfterCourse(b, currentCourseId) == CourseTarget(c.id, c.title)
    ensures !AfterCourse(b, currentCourseId).CourseTarget? ==>
              AfterCourse(b, currentCourseId) == Completed(CompletedMessage)
  {
    NextAfterIsSuccessor(courses, CourseId, currentCourseId);
    var n := NextAfter(courses, CourseId, currentCourseId);
    if n.Some? {
      assert IsSuccessor(courses, CourseId, currentCourseId, n.value);
    }
  }

  /**
   * Completion means that no level offered a successor: the current topic
   * has no later topic in its subject, its subject no later subject in its
   * course, and its course no later course (assuming distinct ids at every
   * level).
   */
  lemma CompletedMeansNothingFollows(b: Backend, currentTopicId: int)
    requires b.allTopics.Some? && b.allSubjects.Some? && b.allCourses.Some?
    requires forall sid :: b.topicsOfSubject(sid).Some? ==> DistinctKeys(b.topicsOfSubject(sid).value, TopicId)
    requires forall cid :: b.subjectsOfCourse(cid).Some? ==> DistinctKeys(b.subjectsOfCourse(cid).value, SubjectId)
    requires DistinctKeys(b.allCourses.value, CourseId)
    ensures FindNextTarget(b, currentTopicId).Completed? ==>
              exists current, subject ::
                && current in b.allTopics.value && current.id == currentTopicId
                && subject in b.allSubjects.value && subject.id == current.subjectId
                && b.topicsOfSubject(current.subjectId).Some?
                && !HasLater(b.topicsOfSubject(current.subjectId).value, TopicId, currentTopicId)
                && b.subjectsOfCourse(subject.courseId).Some?
                && !HasLater(b.subjectsOfCourse(subject.courseId).value, SubjectId, subject.id)
                && !HasLater(b.allCourses.value, CourseId, subject.courseId)
  {
    if FindNextTarget(b, currentTopicId).Completed? {
      var current := FindByKey(b.allTopics.value, TopicId, currentTopicId).value;
      var ts := b.topicsOfSubject(current.subjectId).value;
      NextTopicInSubject(b, currentTopicId, current, ts);
      var subject := FindByKey(b.allSubjects.value, SubjectId, current.subjectId).value;
      var ss := b.subjectsOfCourse(subject.courseId).value;
      NextSubjectInCourse(b, current.subjectId, subject, ss);
      NextCourseOrCompleted(b, subject.courseId, b.allCourses.value);
    }
  }
}
