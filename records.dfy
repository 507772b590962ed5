/** The roster records shared by the browser script and the server (the
    server receives the script's `state.students` and `state.teachers` as
    JSON), the participant text both copies print for a record, and the
    remove-by-id filter the script applies to either roster. */
module Records {
  import opened Text

  /** A student entry; `id` is the creation timestamp the script assigns. */
  datatype Student = Student(id: int, title: string, firstname: string, lastname: string,
                             grade: string, room: string)

  /** A supervising-teacher entry. */
  datatype Teacher = Teacher(id: int, title: string, firstname: string, lastname: string,
                             department: string)

  /** The signing issuer shown under the document. */
  datatype Issuer = Issuer(name: string, position: string)

  function StudentId(s: Student): int { s.id }

  function TeacherId(t: Teacher): int { t.id }

  /** "Student of secondary grade", written before "<grade>/<room>". */
  const GradePrefix: string := "นักเรียนชั้นมัธยมศึกษาปีที่ "

  /** The text after the number on a student's participant line. */
  function StudentEntry(s: Student): string {
    s.title + s.firstname + " " + s.lastname + " " + GradePrefix + s.grade + "/" + s.room
  }

  /** The text after the number on a teacher's participant line. */
  function TeacherEntry(t: Teacher): string {
    t.title + t.firstname + " " + t.lastname + " " + t.department
  }

  /** The participants in print order: every student in roster order, then
      every teacher in roster order. */
  function ParticipantEntries(students: seq<Student>, teachers: seq<Teacher>): (r: seq<string>)
    ensures |r| == |students| + |teachers|
  {
    seq(|students|, i requires 0 <= i < |students| => StudentEntry(students[i]))
      + seq(|teachers|, j requires 0 <= j < |teachers| => TeacherEntry(teachers[j]))
  }

  // ---------------------------------------------------------------------
  // Remove by id

  /** `s.filter(x => idOf(x) !== id)`: the entries whose id differs from
      `id`, in their original order. */
  function Without<T(==,!new)>(s: seq<T>, idOf: T -> int, id: int): (r: seq<T>)
    ensures |r| <= |s|
    ensures forall x :: x in r <==> x in s && idOf(x) != id
    ensures (forall x :: x in s ==> idOf(x) != id) ==> r == s
    decreases |s|
  {
    if s == [] then []
    else
      var rest := Without(s[1..], idOf, id);
      assert forall x :: x in s <==> x == s[0] || x in s[1..];
      if idOf(s[0]) == id then rest else [s[0]] + rest
  }

  /** Filtering distributes over concatenation: whatever is kept of `a`
      still comes before whatever is kept of `b`. With WithoutSingle this
      determines the result entirely, so relative order is preserved. */
  lemma {:induction false} WithoutAppend<T(!new)>(a: seq<T>, b: seq<T>, idOf: T -> int, id: int)
    ensures Without(a + b, idOf, id) == Without(a, idOf, id) + Without(b, idOf, id)
    decreases |a|
  {
    if a == [] {
      assert a + b == b;
    } else {
      assert (a + b)[1..] == a[1..] + b;
      WithoutAppend(a[1..], b, idOf, id);
    }
  }

  /** A single entry is kept exactly when its id differs. */
  lemma WithoutSingle<T(!new)>(x: T, idOf: T -> int, id: int)
    ensures Without([x], idOf, id) == if idOf(x) == id then [] else [x]
  {
    assert [x][1..] == [];
  }
}
