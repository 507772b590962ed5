/** The browser side of the activity-request form (static/script.js): the
    roster store behind the student and teacher lists, the issuer fields it
    fills in from the first teacher, the Thai date formatter and the
    narrative shown in the preview pane. Form values that the script reads
    from the page are parameters here. */
module ClientScript {
  import opened Text
  import opened Calendar
  import opened Records

  // ---------------------------------------------------------------------
  // Validation

  /** `validateStudentData`: first and last name are both non-empty once
      trimmed, that is, each holds a visible character. */
  function ValidateStudentData(s: Student): (ok: bool)
    ensures ok <==> HasVisibleChar(s.firstname) && HasVisibleChar(s.lastname)
  {
    TrimNonEmptyIff(s.firstname);
    TrimNonEmptyIff(s.lastname);
    Trim(s.firstname) != "" && Trim(s.lastname) != ""
  }

  /** `validateTeacherData`: the same test on a teacher's names. */
  function ValidateTeacherData(t: Teacher): (ok: bool)
    ensures ok <==> HasVisibleChar(t.firstname) && HasVisibleChar(t.lastname)
  {
    TrimNonEmptyIff(t.firstname);
    TrimNonEmptyIff(t.lastname);
    Trim(t.firstname) != "" && Trim(t.lastname) != ""
  }

  // ---------------------------------------------------------------------
  // Issuer

  /** The issuer `updateIssuerInfo` derives from a teacher. */
  function IssuerOf(t: Teacher): Issuer {
    Issuer(t.title + t.firstname + " " + t.lastname, "ครู" + t.department)
  }

  /** The issuer fields after `updateIssuerInfo`: derived from the first
      teacher, or left as they were when there is no teacher. */
  function ResolveIssuer(teachers: seq<Teacher>, current: Issuer): Issuer {
    if |teachers| > 0 then IssuerOf(teachers[0]) else current
  }

  /** Appending a teacher to a non-empty roster never changes the derived
      issuer, whatever the issuer fields held before: the issuer follows the
      first teacher, not the one just added. */
  lemma IssuerIgnoresLaterTeachers(teachers: seq<Teacher>, t: Teacher, current: Issuer, earlier: Issuer)
    requires teachers != []
    ensures ResolveIssuer(teachers + [t], current) == ResolveIssuer(teachers, earlier)
  {
  }

  /** Removing the first teacher and re-deriving makes the second teacher
      the issuer, provided the two ids differ. */
  lemma IssuerAfterRemovingFirst(teachers: seq<Teacher>, current: Issuer)
    requires |teachers| >= 2 && teachers[1].id != teachers[0].id
    ensures ResolveIssuer(Without(teachers, TeacherId, teachers[0].id), current) == IssuerOf(teachers[1])
  {
    var id := teachers[0].id;
    assert teachers == [teachers[0]] + ([teachers[1]] + teachers[2..]);
    WithoutAppend([teachers[0]], [teachers[1]] + teachers[2..], TeacherId, id);
    WithoutAppend([teachers[1]], teachers[2..], TeacherId, id);
    WithoutSingle(teachers[0], TeacherId, id);
    WithoutSingle(teachers[1], TeacherId, id);
  }

  // ---------------------------------------------------------------------
  // Thai dates

  /** `formatThaiDate`: "<day> <month name> พ.ศ. <year + 543>". */
  function FormatThaiDate(d: Date): string
    requires ValidDate(d)
  {
    NatToString(d.day) + " " + MonthName(d.month) + " พ.ศ. " + NatToString(d.year + 543)
  }

  /** Reads a date back from the text `FormatThaiDate` produces. */
  function ParseThaiDate(s: string): Option<Date> {
    var f := Split(s, ' ');
    if |f| == 4 && IsDigits(f[0]) && f[2] == "พ.ศ." && IsDigits(f[3]) && MonthOfName(f[1]).Some?
    then Some(Date(ParseNat(f[3]) - 543, MonthOfName(f[1]).value, ParseNat(f[0])))
    else None
  }

  /** The four space-separated fields of a formatted date. */
  lemma {:induction false} FormatThaiDateFields(d: Date)
    requires ValidDate(d)
    ensures Split(FormatThaiDate(d), ' ')
            == [NatToString(d.day), MonthName(d.month), "พ.ศ.", NatToString(d.year + 543)]
  {
    var day, month, year := NatToString(d.day), MonthName(d.month), NatToString(d.year + 543);
    var era := "พ.ศ.";
    assert FormatThaiDate(d) == day + [' '] + (month + [' '] + (era + [' '] + year));
    DigitsHaveNoSpace(day);
    DigitsHaveNoSpace(year);
    SplitField(year, ' ');
    SplitAfterField(era, ' ', year);
    SplitAfterField(month, ' ', era + [' '] + year);
    SplitAfterField(day, ' ', month + [' '] + (era + [' '] + year));
  }

  /** The formatted date loses nothing: it reads back as the same date. */
  lemma FormatThaiDateRoundTrip(d: Date)
    requires ValidDate(d)
    ensures ParseThaiDate(FormatThaiDate(d)) == Some(d)
  {
    FormatThaiDateFields(d);
    ParseNatToString(d.day);
    ParseNatToString(d.year + 543);
    MonthOfNameInverse(d.month);
  }

  /** Distinct dates are formatted differently. */
  lemma FormatThaiDateInjective(d1: Date, d2: Date)
    requires ValidDate(d1) && ValidDate(d2)
    ensures FormatThaiDate(d1) == FormatThaiDate(d2) <==> d1 == d2
  {
    FormatThaiDateRoundTrip(d1);
    FormatThaiDateRoundTrip(d2);
  }

  /** The activity date clause: a single day is written as a full date, a
      range as "<start day> - <end day>" followed by the month and year of
      the END date. */
  function ActivityDateClause(start: Date, end: Date): string
    requires ValidDate(start) && ValidDate(end)
  {
    if start == end then "ในวันที่ " + FormatThaiDate(start)
    else "ระหว่างวันที่ " + NatToString(start.day) + " - " + NatToString(end.day) + " "
         + MonthName(end.month) + " พ.ศ. " + NatToString(end.year + 543)
  }

  /** The clause opens with "ในวันที่ " exactly when the activity lasts one
      day, and a one-day clause reads back as that day. */
  lemma DateClauseSingleDayIff(start: Date, end: Date)
    requires ValidDate(start) && ValidDate(end)
    ensures "ในวันที่ " <= ActivityDateClause(start, end) <==> start == end
    ensures start == end ==>
      ParseThaiDate(ActivityDateClause(start, end)[|"ในวันที่ "|..]) == Some(start)
  {
    if start != end {
      assert ActivityDateClause(start, end)[0] == 'ร';
    } else {
      FormatThaiDateRoundTrip(start);
      assert ActivityDateClause(start, end)[|"ในวันที่ "|..] == FormatThaiDate(start);
    }
  }

  /** Splitting "<lead> <sd> - <ed> <month> พ.ศ. <year>" at spaces, for
      fields without spaces. */
  lemma {:induction false} SplitRangeText(lead: string, sd: string, ed: string, month: string, year: string)
    requires ' ' !in lead && ' ' !in sd && ' ' !in ed && ' ' !in month && ' ' !in year
    ensures Split(lead + [' '] + (sd + [' '] + ("-" + [' '] + (ed + [' '] + (month + [' '] + ("พ.ศ." + [' '] + year))))), ' ')
            == [lead, sd, "-", ed, month, "พ.ศ.", year]
  {
    var dash, era := "-", "พ.ศ.";
    var t4 := era + [' '] + year;
    var t3 := month + [' '] + t4;
    var t2 := ed + [' '] + t3;
    var t1 := dash + [' '] + t2;
    var t0 := sd + [' '] + t1;
    assert Split(t4, ' ') == [era, year] by {
      SplitField(year, ' ');
      SplitAfterField(era, ' ', year);
    }
    assert Split(t3, ' ') == [month, era, year] by {
      SplitAfterField(month, ' ', t4);
    }
    assert Split(t2, ' ') == [ed, month, era, year] by {
      SplitAfterField(ed, ' ', t3);
    }
    assert Split(t1, ' ') == [dash, ed, month, era, year] by {
      SplitAfterField(dash, ' ', t2);
    }
    assert Split(t0, ' ') == [sd, dash, ed, month, era, year] by {
      SplitAfterField(sd, ' ', t1);
    }
    SplitAfterField(lead, ' ', t0);
  }

  /** A range clause written with its spaces as separate characters. */
  lemma RangeTextShape(sd: string, ed: string, month: string, year: string)
    ensures "ระหว่างวันที่ " + sd + " - " + ed + " " + month + " พ.ศ. " + year
            == "ระหว่างวันที่" + [' '] + (sd + [' '] + ("-" + [' '] + (ed + [' '] + (month + [' '] + ("พ.ศ." + [' '] + year)))))
  {
    assert "ระหว่างวันที่ " == "ระหว่างวันที่" + [' '];
    assert " - " == [' '] + "-" + [' '];
    assert " พ.ศ. " == [' '] + "พ.ศ." + [' '];
  }

  /** The seven space-separated fields of a multi-day clause. */
  lemma MultiDayClauseFields(start: Date, end: Date)
    requires ValidDate(start) && ValidDate(end) && start != end
    ensures Split(ActivityDateClause(start, end), ' ')
            == ["ระหว่างวันที่", NatToString(start.day), "-", NatToString(end.day),
                MonthName(end.month), "พ.ศ.", NatToString(end.year + 543)]
  {
    var sd, ed := NatToString(start.day), NatToString(end.day);
    var month, year := MonthName(end.month), NatToString(end.year + 543);
    RangeTextShape(sd, ed, month, year);
    SplitRangeText("ระหว่างวันที่", sd, ed, month, year);
  }

  /** Reads a range clause back as (start day, end day, end month, end year). */
  function ReadRangeClause(s: string): Option<(int, int, int, int)> {
    var f := Split(s, ' ');
    if && |f| == 7 && f[0] == "ระหว่างวันที่" && f[2] == "-" && f[5] == "พ.ศ."
       && IsDigits(f[1]) && IsDigits(f[3]) && IsDigits(f[6]) && MonthOfName(f[4]).Some?
    then Some((ParseNat(f[1]), ParseNat(f[3]), MonthOfName(f[4]).value, ParseNat(f[6]) - 543))
    else None
  }

  /** A multi-day clause reads back as the start day and the end date. */
  lemma MultiDayClauseReadsBack(start: Date, end: Date)
    requires ValidDate(start) && ValidDate(end) && start != end
    ensures ReadRangeClause(ActivityDateClause(start, end)) == Some((start.day, end.day, end.month, end.year))
  {
    MultiDayClauseFields(start, end);
    ParseNatToString(start.day);
    ParseNatToString(end.day);
    ParseNatToString(end.year + 543);
    MonthOfNameInverse(end.month);
  }

  /** A multi-day clause records the start day and the whole end date, and
      nothing else: two ranges print alike exactly when they agree on those.
      In particular the month and year of the start date are not shown. */
  lemma MultiDayClauseDeterminedBy(s1: Date, e1: Date, s2: Date, e2: Date)
    requires ValidDate(s1) && ValidDate(e1) && s1 != e1
    requires ValidDate(s2) && ValidDate(e2) && s2 != e2
    ensures ActivityDateClause(s1, e1) == ActivityDateClause(s2, e2)
            <==> s1.day == s2.day && e1 == e2
  {
    if ActivityDateClause(s1, e1) == ActivityDateClause(s2, e2) {
      MultiDayClauseReadsBack(s1, e1);
      MultiDayClauseReadsBack(s2, e2);
    }
  }

  // ---------------------------------------------------------------------
  // Narrative

  /** The indentation the preview puts before each paragraph and line. */
  const Indent: string := "                "

  /** The fixed opening of the narrative, up to the date clause. */
  function OpeningClause(department: string, activityName: string, location: string): string {
    Indent + "ด้วย" + department + " มีความประสงค์นำนักเรียนเข้าร่วมกิจกรรม" + activityName + " "
      + "ณ " + location + " "
  }

  const ParticipantHeader: string := "\n\n" + Indent + "ในกิจกรรมนี้ ได้ส่งนักเรียนและผู้ควบคุม คือ"

  /** The participant line numbered `n`. */
  function ParticipantLine(n: nat, entry: string): string {
    "\n" + Indent + NatToString(n) + ". " + entry
  }

  /** The participant lines, numbered 1, 2, ... in print order. */
  function NumberedLines(entries: seq<string>): seq<string> {
    seq(|entries|, k requires 0 <= k < |entries| => ParticipantLine(k + 1, entries[k]))
  }

  /** The participant section: a header and the numbered lines, present only
      when at least one student or teacher is on a roster. */
  function ParticipantSection(students: seq<Student>, teachers: seq<Teacher>): string {
    if |students| > 0 || |teachers| > 0
    then ParticipantHeader + Concat(NumberedLines(ParticipantEntries(students, teachers)))
    else ""
  }

  /** Numbering is global and contiguous: student i is numbered i + 1 and
      teacher j is numbered S + j + 1, so the lines run from 1 to S + T. */
  lemma ParticipantNumbering(students: seq<Student>, teachers: seq<Teacher>)
    ensures var lines := NumberedLines(ParticipantEntries(students, teachers));
      && |lines| == |students| + |teachers|
      && (forall i :: 0 <= i < |students| ==> lines[i] == ParticipantLine(i + 1, StudentEntry(students[i])))
      && (forall j :: 0 <= j < |teachers| ==>
            lines[|students| + j] == ParticipantLine(|students| + j + 1, TeacherEntry(teachers[j])))
  {
  }

  /** The participant section is empty exactly when both rosters are. */
  lemma ParticipantSectionEmptyIff(students: seq<Student>, teachers: seq<Teacher>)
    ensures ParticipantSection(students, teachers) == "" <==> students == [] && teachers == []
  {
    if students != [] || teachers != [] {
      assert ParticipantSection(students, teachers)[0] == '\n';
    }
  }

  lemma {:induction false} NumberedLinesSnoc(entries: seq<string>, e: string)
    ensures Concat(NumberedLines(entries + [e]))
            == Concat(NumberedLines(entries)) + ParticipantLine(|entries| + 1, e)
  {
    var line := ParticipantLine(|entries| + 1, e);
    assert NumberedLines(entries + [e]) == NumberedLines(entries) + [line];
    ConcatAppend(NumberedLines(entries), [line]);
    assert Concat([line]) == line + Concat([]);
  }

  /** The two pieces the script appends first make up the opening clause. */
  lemma OpeningPieces(department: string, activityName: string, location: string)
    ensures (Indent + "ด้วย" + department + " มีความประสงค์นำนักเรียนเข้าร่วมกิจกรรม" + activityName + " ")
            + ("ณ " + location + " ")
            == OpeningClause(department, activityName, location)
  {
  }

  /** The two pieces the script appends for a range make up the date clause. */
  lemma RangePieces(start: Date, end: Date)
    requires ValidDate(start) && ValidDate(end) && start != end
    ensures ("ระหว่างวันที่ " + NatToString(start.day) + " - " + NatToString(end.day) + " ")
            + (MonthName(end.month) + " พ.ศ. " + NatToString(end.year + 543))
            == ActivityDateClause(start, end)
  {
  }

  /** The two pieces the script appends for a student make up that
      student's participant line. */
  lemma StudentLinePieces(n: nat, s: Student)
    ensures ("\n" + Indent + NatToString(n) + ". " + s.title + s.firstname + " " + s.lastname + " ")
            + (GradePrefix + s.grade + "/" + s.room)
            == ParticipantLine(n, StudentEntry(s))
  {
  }

  /** The piece the script appends for a teacher is that teacher's line. */
  lemma TeacherLinePiece(n: nat, t: Teacher)
    ensures "\n" + Indent + NatToString(n) + ". " + t.title + t.firstname + " " + t.lastname + " " + t.department
            == ParticipantLine(n, TeacherEntry(t))
  {
  }

  /** One more student extends the numbered text by that student's line. */
  lemma NumberedStudentsSnoc(students: seq<Student>, i: nat)
    requires i < |students|
    ensures Concat(NumberedLines(ParticipantEntries(students[..i + 1], [])))
            == Concat(NumberedLines(ParticipantEntries(students[..i], [])))
               + ParticipantLine(i + 1, StudentEntry(students[i]))
  {
    assert ParticipantEntries(students[..i + 1], [])
           == ParticipantEntries(students[..i], []) + [StudentEntry(students[i])];
    NumberedLinesSnoc(ParticipantEntries(students[..i], []), StudentEntry(students[i]));
  }

  /** One more teacher extends the numbered text by that teacher's line. */
  lemma NumberedTeachersSnoc(students: seq<Student>, teachers: seq<Teacher>, j: nat)
    requires j < |teachers|
    ensures Concat(NumberedLines(ParticipantEntries(students, teachers[..j + 1])))
            == Concat(NumberedLines(ParticipantEntries(students, teachers[..j])))
               + ParticipantLine(|students| + j + 1, TeacherEntry(teachers[j]))
  {
    assert ParticipantEntries(students, teachers[..j + 1])
           == ParticipantEntries(students, teachers[..j]) + [TeacherEntry(teachers[j])];
    NumberedLinesSnoc(ParticipantEntries(students, teachers[..j]), TeacherEntry(teachers[j]));
  }

  /** Appending student i's line to text that already holds the lines of
      students 0..i-1 gives the lines of students 0..i. */
  lemma StudentStep(head: string, students: seq<Student>, i: nat, line: string)
    requires i < |students| && line == ParticipantLine(i + 1, StudentEntry(students[i]))
    ensures head + Concat(NumberedLines(ParticipantEntries(students[..i], [])))  + line
            == head + Concat(NumberedLines(ParticipantEntries(students[..i + 1], [])))
  {
    NumberedStudentsSnoc(students, i);
    AppendAssoc(head, Concat(NumberedLines(ParticipantEntries(students[..i], []))), line);
  }

  /** Appending teacher j's line to text that already holds the lines of
      every student and of teachers 0..j-1 gives those lines and teacher j's. */
  lemma TeacherStep(head: string, students: seq<Student>, teachers: seq<Teacher>, j: nat, line: string)
    requires j < |teachers| && line == ParticipantLine(|students| + j + 1, TeacherEntry(teachers[j]))
    ensures head + Concat(NumberedLines(ParticipantEntries(students, teachers[..j]))) + line
            == head + Concat(NumberedLines(ParticipantEntries(students, teachers[..j + 1])))
  {
    NumberedTeachersSnoc(students, teachers, j);
    AppendAssoc(head, Concat(NumberedLines(ParticipantEntries(students, teachers[..j]))), line);
  }

  /** The form fields `updatePreview` reads from the page. */
  datatype FormFields = FormFields(department: string, date: Date, subject: string,
                                   activityName: string, location: string,
                                   startDate: Date, endDate: Date)

  predicate ValidFields(f: FormFields) {
    ValidDate(f.date) && ValidDate(f.startDate) && ValidDate(f.endDate)
  }

  /** The narrative paragraph: opening, date clause, participant section. */
  function ComposeContent(f: FormFields, students: seq<Student>, teachers: seq<Teacher>): string
    requires ValidFields(f)
  {
    OpeningClause(f.department, f.activityName, f.location)
      + ActivityDateClause(f.startDate, f.endDate)
      + ParticipantSection(students, teachers)
  }

  /** The strings `updatePreview` publishes to the preview pane. */
  datatype Preview = Preview(department: string, date: string, subject: string,
                             issuerName: string, issuerPosition: string, content: string)

  // ---------------------------------------------------------------------
  // The roster store

  /** The script's `state` together with the issuer input fields it writes. */
  class RosterStore {
    var students: seq<Student>
    var teachers: seq<Teacher>
    var issuerName: string
    var issuerPosition: string

    /** An empty roster; the issuer fields start with whatever the page holds. */
    constructor (name: string, position: string)
      ensures students == [] && teachers == []
      ensures issuerName == name && issuerPosition == position
    {
      students := [];
      teachers := [];
      issuerName := name;
      issuerPosition := position;
    }

    function CurrentIssuer(): Issuer
      reads this
    {
      Issuer(issuerName, issuerPosition)
    }

    /** `addStudent`: a valid record is appended at the end; an invalid one
        is rejected and nothing changes. `id` stands for `Date.now()`. */
    method AddStudent(title: string, firstname: string, lastname: string,
                      grade: string, room: string, id: int) returns (ok: bool)
      modifies this
      ensures ok <==> HasVisibleChar(firstname) && HasVisibleChar(lastname)
      ensures students == if ok then old(students) + [Student(id, title, firstname, lastname, grade, room)]
                          else old(students)
      ensures teachers == old(teachers) && CurrentIssuer() == old(CurrentIssuer())
    {
      var student := Student(id, title, firstname, lastname, grade, room);
      ok := ValidateStudentData(student);
      if !ok {
        return;
      }
      students := students + [student];
    }

    /** `removeStudent`: every student with this id is dropped, the rest
        keep their order; an absent id changes nothing. */
    method RemoveStudent(id: int)
      modifies this
      ensures students == Without(old(students), StudentId, id)
      ensures teachers == old(teachers) && CurrentIssuer() == old(CurrentIssuer())
    {
      students := Without(students, StudentId, id);
    }

    /** `addTeacher`: a valid record is appended at the end and the issuer is
        re-derived from the FIRST teacher, overwriting the issuer fields; an
        invalid record is rejected and nothing changes. */
    method AddTeacher(title: string, firstname: string, lastname: string,
                      department: string, id: int) returns (ok: bool)
      modifies this
      ensures ok <==> HasVisibleChar(firstname) && HasVisibleChar(lastname)
      ensures teachers == if ok then old(teachers) + [Teacher(id, title, firstname, lastname, department)]
                          else old(teachers)
      ensures students == old(students)
      ensures CurrentIssuer() == if ok then IssuerOf(teachers[0]) else old(CurrentIssuer())
      ensures ok && old(teachers) != [] ==> CurrentIssuer() == IssuerOf(old(teachers)[0])
    {
      var teacher := Teacher(id, title, firstname, lastname, department);
      ok := ValidateTeacherData(teacher);
      if !ok {
        return;
      }
      teachers := teachers + [teacher];
      UpdateIssuerInfo();
    }

    /** `removeTeacher`: as `removeStudent`, on the teacher roster. The issuer
        fields are not re-derived. */
    method RemoveTeacher(id: int)
      modifies this
      ensures teachers == Without(old(teachers), TeacherId, id)
      ensures students == old(students) && CurrentIssuer() == old(CurrentIssuer())
    {
      teachers := Without(teachers, TeacherId, id);
    }

    /** `updateIssuerInfo`: the issuer fields are set from the first teacher,
        or left untouched when there is none. */
    method UpdateIssuerInfo()
      modifies this
      ensures CurrentIssuer() == ResolveIssuer(teachers, old(CurrentIssuer()))
      ensures students == old(students) && teachers == old(teachers)
    {
      if |teachers| > 0 {
        var first := teachers[0];
        issuerName := first.title + first.firstname + " " + first.lastname;
        issuerPosition := "ครู" + first.department;
      }
    }

    /** `updatePreview`: builds the narrative step by step, as the script's
        `+=` statements and `forEach` loops do, and yields every string the
        preview pane shows. */
    method UpdatePreview(f: FormFields) returns (p: Preview)
      requires ValidFields(f)
      ensures p.content == ComposeContent(f, students, teachers)
      ensures p.department == f.department && p.subject == f.subject + f.activityName
      ensures p.date == FormatThaiDate(f.date)
      ensures p.issuerName == (if issuerName == "" then "" else "(" + issuerName + ")")
      ensures p.issuerPosition == issuerPosition
    {
      var content := Indent + "ด้วย" + f.department + " มีความประสงค์นำนักเรียนเข้าร่วมกิจกรรม"
                     + f.activityName + " ";
      var place := "ณ " + f.location + " ";
      OpeningPieces(f.department, f.activityName, f.location);
      content := content + place;
      content := AppendDateClause(content, f.startDate, f.endDate);
      ghost var opening := content;

      if |students| > 0 || |teachers| > 0 {
        content := content + ParticipantHeader;
        content := AppendParticipantLines(content);
        AppendAssoc(opening, ParticipantHeader, Concat(NumberedLines(ParticipantEntries(students, teachers))));
      }

      var shownName := if issuerName != "" then "(" + issuerName + ")" else "";
      p := Preview(f.department, FormatThaiDate(f.date), f.subject + f.activityName,
                   shownName, issuerPosition, content);
    }

    /** The date-clause part of `updatePreview`: a single day when the start
        and end dates coincide, otherwise a range appended in two pieces. */
    static method AppendDateClause(content: string, start: Date, end: Date) returns (r: string)
      requires ValidDate(start) && ValidDate(end)
      ensures r == content + ActivityDateClause(start, end)
    {
      if start == end {
        r := content + ("ในวันที่ " + FormatThaiDate(start));
      } else {
        var days := "ระหว่างวันที่ " + NatToString(start.day) + " - " + NatToString(end.day) + " ";
        r := content + days;
        var monthYear := MonthName(end.month) + " พ.ศ. " + NatToString(end.year + 543);
        r := r + monthYear;
        RangePieces(start, end);
        AppendAssoc(content, days, monthYear);
      }
    }

    /** The two `forEach` loops of `updatePreview`: one line per student,
        then one per teacher, numbered on from the students. */
    method AppendParticipantLines(content: string) returns (r: string)
      ensures r == content + Concat(NumberedLines(ParticipantEntries(students, teachers)))
    {
      r := content;
      var i := 0;
      while i < |students|
        invariant 0 <= i <= |students|
        invariant r == content + Concat(NumberedLines(ParticipantEntries(students[..i], [])))
      {
        var student := students[i];
        var name := "\n" + Indent + NatToString(i + 1) + ". "
                    + student.title + student.firstname + " " + student.lastname + " ";
        var level := GradePrefix + student.grade + "/" + student.room;
        StudentLinePieces(i + 1, student);
        StudentStep(content, students, i, name + level);
        AppendAssoc(r, name, level);
        r := r + name;
        r := r + level;
        i := i + 1;
      }
      assert students[..i] == students;
      assert teachers[..0] == [];

      var j := 0;
      while j < |teachers|
        invariant 0 <= j <= |teachers|
        invariant r == content + Concat(NumberedLines(ParticipantEntries(students, teachers[..j])))
      {
        var teacher := teachers[j];
        var line := "\n" + Indent + NatToString(|students| + j + 1) + ". "
                    + teacher.title + teacher.firstname + " " + teacher.lastname + " "
                    + teacher.department;
        TeacherLinePiece(|students| + j + 1, teacher);
        TeacherStep(content, students, teachers, j, line);
        r := r + line;
        j := j + 1;
      }
      assert teachers[..j] == teachers;
    }
  }
}
