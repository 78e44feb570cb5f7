/**
 * The in-memory student list of the CRUD example page: adding appends a
 * record numbered one past the list's length, updating merges the form
 * into the records with the edited id, deleting filters that id out, and a
 * submission updates while a student is being edited and adds otherwise.
 */
module StudentCrud {
  import opened Wrappers
  import StudentForm

  datatype Student = Student(id: int, name: string, email: string, course: Option<string>, enrollmentDate: Option<string>)

  const InitialStudents: seq<Student> := [
    Student(1, "John Doe", "john.doe@example.com", Some("Computer Science"), Some("2024-01-15")),
    Student(2, "Jane Smith", "jane.smith@example.com", Some("Mathematics"), Some("2024-02-20"))
  ]

  /** `{ ...student, ...formData }`: the form's name and email over the record. */
  function Merge(s: Student, f: StudentForm.FormData): (r: Student)
    ensures r.name == f.name && r.email == f.email
    ensures r.id == s.id && r.course == s.course && r.enrollmentDate == s.enrollmentDate
  {
    s.(name := f.name, email := f.email)
  }

  /** `handleAddStudent`'s new list: one record, numbered `length + 1`, appended. */
  function Added(students: seq<Student>, f: StudentForm.FormData): (r: seq<Student>)
    ensures |r| == |students| + 1 && r[..|students|] == students
    ensures r[|students|] == Student(|students| + 1, f.name, f.email, None, None)
  {
    students + [Student(|students| + 1, f.name, f.email, None, None)]
  }

  /** `handleUpdateStudent`'s new list: every record with the edited id merged with the form, the rest as they were. */
  function UpdatedById(students: seq<Student>, id: int, f: StudentForm.FormData): (r: seq<Student>)
    ensures |r| == |students|
    ensures forall i :: 0 <= i < |students| && students[i].id == id ==> r[i] == Merge(students[i], f)
    ensures forall i :: 0 <= i < |students| && students[i].id != id ==> r[i] == students[i]
  {
    seq(|students|, i requires 0 <= i < |students| => if students[i].id == id then Merge(students[i], f) else students[i])
  }

  /** `handleDelete`'s new list: `students.filter(s => s.id !== id)`. */
  function WithoutId(students: seq<Student>, id: int): (r: seq<Student>)
    ensures |r| <= |students|
    ensures forall x :: x in r ==> x in students && x.id != id
    ensures forall x :: x in students && x.id != id ==> x in r
    decreases |students|
  {
    if |students| == 0 then []
    else
      var rest := WithoutId(students[..|students| - 1], id);
      var last := students[|students| - 1];
      if last.id != id then rest + [last] else rest
  }

  /** Filtering distributes over concatenation, so the kept records keep their order. */
  lemma {:induction false} WithoutIdAppend(a: seq<Student>, b: seq<Student>, id: int)
    ensures WithoutId(a + b, id) == WithoutId(a, id) + WithoutId(b, id)
    decreases |b|
  {
    if |b| == 0 {
      assert a + b == a;
    } else {
      var b' := b[..|b| - 1];
      assert (a + b)[..|a + b| - 1] == a + b';
      WithoutIdAppend(a, b', id);
    }
  }

  /** Deleting an id no record has changes nothing. */
  lemma {:induction false} WithoutAbsentId(students: seq<Student>, id: int)
    requires forall i :: 0 <= i < |students| ==> students[i].id != id
    ensures WithoutId(students, id) == students
    decreases |students|
  {
    if |students| > 0 {
      WithoutAbsentId(students[..|students| - 1], id);
    }
  }

  /** The number of records with a given id. */
  function CountId(students: seq<Student>, id: int): nat
    decreases |students|
  {
    if |students| == 0 then 0
    else CountId(students[..|students| - 1], id) + (if students[|students| - 1].id == id then 1 else 0)
  }

  /** Deleting removes exactly the records with that id. */
  lemma {:induction false} WithoutIdLength(students: seq<Student>, id: int)
    ensures |WithoutId(students, id)| == |students| - CountId(students, id)
    decreases |students|
  {
    if |students| > 0 {
      WithoutIdLength(students[..|students| - 1], id);
    }
  }

  /**
   * Numbering by length repeats ids once a record is deleted: deleting the
   * first sample student and adding one gives two records numbered 2.
   */
  lemma DeleteThenAddRepeatsId(f: StudentForm.FormData)
    ensures var s := Added(WithoutId(InitialStudents, 1), f);
            |s| == 2 && s[0].id == 2 && s[1].id == 2
  {
    var kept := WithoutId(InitialStudents, 1);
    assert InitialStudents[..1] == [InitialStudents[0]];
    assert WithoutId(InitialStudents[..1], 1) == [] by {
      assert InitialStudents[..1][..0] == [];
    }
    assert kept == [InitialStudents[1]];
  }

  class StudentList {
    var students: seq<Student>
    var editing: Option<Student>

    constructor()
      ensures students == InitialStudents && editing.None?
    {
      students := InitialStudents;
      editing := None;
    }

    method AddStudent(f: StudentForm.FormData)
      modifies this
      ensures students == Added(old(students), f) && editing == old(editing)
    {
      students := students + [Student(|students| + 1, f.name, f.email, None, None)];
    }

    /** `handleUpdateStudent`: only called while a student is being edited; the edit ends. */
    method UpdateStudent(f: StudentForm.FormData)
      requires editing.Some?
      modifies this
      ensures students == UpdatedById(old(students), old(editing).value.id, f) && editing.None?
    {
      students := UpdatedById(students, editing.value.id, f);
      editing := None;
    }

    /** `handleFormSubmit`: an update while editing, an addition otherwise. */
    method Submit(f: StudentForm.FormData)
      modifies this
      ensures old(editing).Some? ==> students == UpdatedById(old(students), old(editing).value.id, f) && editing.None?
      ensures old(editing).None? ==> students == Added(old(students), f) && editing.None?
    {
      if editing.Some? {
        UpdateStudent(f);
      } else {
        AddStudent(f);
      }
    }

    method Edit(s: Student)
      modifies this
      ensures editing == Some(s) && students == old(students)
    {
      editing := Some(s);
    }

    method Delete(id: int)
      modifies this
      ensures students == WithoutId(old(students), id) && editing == old(editing)
    {
      students := WithoutId(students, id);
    }

    method Cancel()
      modifies this
      ensures editing.None? && students == old(students)
    {
      editing := None;
    }
  }
}
