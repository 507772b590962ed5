/** The Flask side (app.py): the Buddhist-era year, the server's Thai date
    format, the date clause and participant list `generate_document` fills
    into the Word template, and the decision `download` takes before
    sending a file. The file system is an input: the set of paths that
    exist. */
module ServerApp {
  import opened Text
  import opened Calendar
  import opened Records

  // ---------------------------------------------------------------------
  // Thai dates

  /** `convert_to_buddhist_year`: the Buddhist era runs 543 years ahead of
      the common era. */
  function ConvertToBuddhistYear(year: int): int {
    year + 543
  }

  /** `format_thai_date`: "<day> <month name> <Buddhist year>", with no
      era marker between month and year. */
  function FormatThaiDate(d: Date): string
    requires ValidDate(d)
  {
    NatToString(d.day) + " " + MonthName(d.month) + " " + NatToString(ConvertToBuddhistYear(d.year))
  }

  /** Reads a date back from the text `FormatThaiDate` produces. */
  function ParseThaiDate(s: string): Option<Date> {
    var f := Split(s, ' ');
    if |f| == 3 && IsDigits(f[0]) && IsDigits(f[2]) && MonthOfName(f[1]).Some?
    then Some(Date(ParseNat(f[2]) - 543, MonthOfName(f[1]).value, ParseNat(f[0])))
    else None
  }

  /** The three space-separated fields of a formatted date. */
  lemma {:induction false} FormatThaiDateFields(d: Date)
    requires ValidDate(d)
    ensures Split(FormatThaiDate(d), ' ')
            == [NatToString(d.day), MonthName(d.month), NatToString(ConvertToBuddhistYear(d.year))]
  {
    var day, month, year := NatToString(d.day), MonthName(d.month), NatToString(ConvertToBuddhistYear(d.year));
    assert FormatThaiDate(d) == day + [' '] + (month + [' '] + year);
    DigitsHaveNoSpace(day);
    DigitsHaveNoSpace(year);
    SplitField(year, ' ');
    SplitAfterField(month, ' ', year);
    SplitAfterField(day, ' ', month + [' '] + year);
  }

  /** The formatted date loses nothing: it reads back as the same date, the
      year converted back from the Buddhist era. */
  lemma FormatThaiDateRoundTrip(d: Date)
    requires ValidDate(d)
    ensures ParseThaiDate(FormatThaiDate(d)) == Some(d)
  {
    FormatThaiDateFields(d);
    ParseNatToString(d.day);
    ParseNatToString(ConvertToBuddhistYear(d.year));
    MonthOfNameInverse(d.month);
  }

  /** Distinct dates are formatted differently. */
  lemma FormatThaiDateInjective(d1: Date, d2: Date)
    requires ValidDate(d1) && ValidDate(d2)
    ensures FormatThaiDate(d1) == FormatThaiDate(d2) <==> d1 == d2
  {
    FormatThaiDateRoundTrip(d1);
    FormatThaiDateRoundTrip(d2);
  }

  // ---------------------------------------------------------------------
  // The document text

  /** `activity_date_str`: a single day as a full server-format date, a
      range as "<start day> - <end day>" followed by the month and the
      Buddhist year of the END date. */
  function ActivityDateStr(start: Date, end: Date): string
    requires ValidDate(start) && ValidDate(end)
  {
    if start == end then "ในวันที่ " + FormatThaiDate(start)
    else "ระหว่างวันที่ " + NatToString(start.day) + " - " + NatToString(end.day) + " "
         + MonthName(end.month) + " พ.ศ. " + NatToString(ConvertToBuddhistYear(end.year))
  }

  /** The clause opens with "ในวันที่ " exactly when the activity lasts one
      day, and a one-day clause reads back as that day. */
  lemma ActivityDateStrSingleDay(start: Date, end: Date)
    requires ValidDate(start) && ValidDate(end)
    ensures "ในวันที่ " <= ActivityDateStr(start, end) <==> start == end
    ensures start == end ==>
      ParseThaiDate(ActivityDateStr(start, end)[|"ในวันที่ "|..]) == Some(start)
  {
    if start != end {
      assert ActivityDateStr(start, end)[0] == 'ร';
    } else {
      FormatThaiDateRoundTrip(start);
      assert ActivityDateStr(start, end)[|"ในวันที่ "|..] == FormatThaiDate(start);
    }
  }

  /** The indentation `generate_document` puts before each participant. */
  const LineIndent: string := "   "

  /** The participant line numbered `n`. */
  function ServerLine(n: nat, entry: string): string {
    LineIndent + NatToString(n) + ". " + entry
  }

  /** The participant lines, numbered 1, 2, ... in print order. */
  function ParticipantLines(students: seq<Student>, teachers: seq<Teacher>): seq<string> {
    var entries := ParticipantEntries(students, teachers);
    seq(|entries|, k requires 0 <= k < |entries| => ServerLine(k + 1, entries[k]))
  }

  /** Every student comes first, numbered from 1 in roster order, then every
      teacher, numbered on from S + 1 in roster order: S + T lines in all. */
  lemma ParticipantLinesNumbering(students: seq<Student>, teachers: seq<Teacher>)
    ensures var lines := ParticipantLines(students, teachers);
      && |lines| == |students| + |teachers|
      && (forall i :: 0 <= i < |students| ==> lines[i] == ServerLine(i + 1, StudentEntry(students[i])))
      && (forall j :: 0 <= j < |teachers| ==>
            lines[|students| + j] == ServerLine(|students| + j + 1, TeacherEntry(teachers[j])))
  {
  }

  /** The two f-string pieces for a student make up that student's line. */
  lemma StudentLinePieces(n: nat, s: Student)
    ensures (LineIndent + NatToString(n) + ". " + s.title + s.firstname + " ")
            + (s.lastname + " " + GradePrefix + s.grade + "/" + s.room)
            == ServerLine(n, StudentEntry(s))
  {
  }

  /** The two f-string pieces for a teacher make up that teacher's line. */
  lemma TeacherLinePieces(n: nat, t: Teacher)
    ensures (LineIndent + NatToString(n) + ". " + t.title + t.firstname + " ")
            + (t.lastname + " " + t.department)
            == ServerLine(n, TeacherEntry(t))
  {
  }

  /** The two `enumerate` loops of `generate_document`: students numbered
      from 1, then teachers numbered from the list's length plus one. */
  method BuildParticipantsList(students: seq<Student>, teachers: seq<Teacher>) returns (list: seq<string>)
    ensures list == ParticipantLines(students, teachers)
  {
    list := [];
    var i := 0;
    while i < |students|
      invariant 0 <= i <= |students| && |list| == i
      invariant forall k :: 0 <= k < i ==> list[k] == ServerLine(k + 1, StudentEntry(students[k]))
    {
      var idx := i + 1;
      var student := students[i];
      StudentLinePieces(idx, student);
      list := list + [(LineIndent + NatToString(idx) + ". " + student.title + student.firstname + " ")
                      + (student.lastname + " " + GradePrefix + student.grade + "/" + student.room)];
      i := i + 1;
    }

    var start := |list| + 1;
    var j := 0;
    while j < |teachers|
      invariant 0 <= j <= |teachers| && |list| == |students| + j
      invariant forall k :: 0 <= k < |students| ==> list[k] == ServerLine(k + 1, StudentEntry(students[k]))
      invariant forall k :: 0 <= k < j ==>
        list[|students| + k] == ServerLine(start + k, TeacherEntry(teachers[k]))
    {
      var idx := start + j;
      var teacher := teachers[j];
      TeacherLinePieces(idx, teacher);
      list := list + [(LineIndent + NatToString(idx) + ". " + teacher.title + teacher.firstname + " ")
                      + (teacher.lastname + " " + teacher.department)];
      j := j + 1;
    }

    ParticipantLinesNumbering(students, teachers);
    var lines := ParticipantLines(students, teachers);
    assert forall k :: 0 <= k < |list| ==> list[k] == lines[k] by {
      forall k | 0 <= k < |list|
        ensures list[k] == lines[k]
      {
        if k >= |students| {
          assert list[|students| + (k - |students|)] == lines[|students| + (k - |students|)];
        }
      }
    }
  }

  /** `combined_list` is empty exactly when both rosters are. */
  lemma CombinedListEmptyIff(students: seq<Student>, teachers: seq<Teacher>)
    ensures Join(ParticipantLines(students, teachers), "\n") == "" <==> students == [] && teachers == []
  {
    var lines := ParticipantLines(students, teachers);
    if lines != [] {
      assert Join(lines, "\n")[0] == ' ' by {
        if |lines| == 1 {
          assert Join(lines, "\n") == lines[0];
        } else {
          assert Join(lines, "\n") == lines[0] + "\n" + Join(lines[1..], "\n");
        }
      }
    }
  }

  /** A line holds a newline only where its entry does. */
  lemma ServerLineNoNewline(n: nat, entry: string)
    requires '\n' !in entry
    ensures '\n' !in ServerLine(n, entry)
  {
    var digits := NatToString(n);
    assert forall i :: 0 <= i < |digits| ==> IsDigit(digits[i]);
  }

  /** With no newline inside any name, department, grade or room, cutting
      `combined_list` at its newlines gives back the participant lines. */
  lemma CombinedListSplit(students: seq<Student>, teachers: seq<Teacher>)
    requires students != [] || teachers != []
    requires forall e :: e in ParticipantEntries(students, teachers) ==> '\n' !in e
    ensures Split(Join(ParticipantLines(students, teachers), "\n"), '\n') == ParticipantLines(students, teachers)
  {
    var entries := ParticipantEntries(students, teachers);
    var lines := ParticipantLines(students, teachers);
    forall k | 0 <= k < |lines|
      ensures '\n' !in lines[k]
    {
      assert entries[k] in entries;
      ServerLineNoNewline(k + 1, entries[k]);
    }
    SplitJoin(lines, '\n');
  }

  /** The form data `generate_document` reads; dates are already parsed. */
  datatype DocumentForm = DocumentForm(department: string, date: Date, subject: string,
                                       activityName: string, location: string,
                                       startDate: Date, endDate: Date,
                                       students: seq<Student>, teachers: seq<Teacher>,
                                       issuerName: string, issuerPosition: string)

  const DepartmentKey: string := "{departments[selected_department]}"
  const SubmissionDateKey: string := "{formatted_submission_date}"
  const SubjectKey: string := "{subject}"
  const ActivityNameKey: string := "{activity_name}"
  const LocationKey: string := "{location}"
  const ActivityDateKey: string := "{activity_date_str}"
  const ParticipantsKey: string := "{stdname}"
  const IssuerNameKey: string := "{issuer_name}"
  const IssuerPositionKey: string := "{issuer_position}"

  /** The nine template placeholders. */
  const Placeholders: set<string> := {
    DepartmentKey, SubmissionDateKey, SubjectKey, ActivityNameKey, LocationKey,
    ActivityDateKey, ParticipantsKey, IssuerNameKey, IssuerPositionKey
  }

  /** The text part of `generate_document`: the replacement for every
      template placeholder. */
  method GenerateDocument(form: DocumentForm) returns (replacements: map<string, string>)
    requires ValidDate(form.date) && ValidDate(form.startDate) && ValidDate(form.endDate)
    ensures replacements.Keys == Placeholders
    ensures replacements[SubmissionDateKey] == FormatThaiDate(form.date)
    ensures replacements[ActivityDateKey] == ActivityDateStr(form.startDate, form.endDate)
    ensures replacements[ParticipantsKey] == Join(ParticipantLines(form.students, form.teachers), "\n")
    ensures replacements[DepartmentKey] == form.department && replacements[SubjectKey] == form.subject
    ensures replacements[ActivityNameKey] == form.activityName && replacements[LocationKey] == form.location
    ensures replacements[IssuerNameKey] == form.issuerName
    ensures replacements[IssuerPositionKey] == form.issuerPosition
  {
    var submission := FormatThaiDate(form.date);
    var start, end := form.startDate, form.endDate;
    var activityDate: string;
    if start == end {
      activityDate := "ในวันที่ " + FormatThaiDate(start);
    } else {
      activityDate := "ระหว่างวันที่ " + NatToString(start.day) + " - " + NatToString(end.day) + " "
                      + MonthName(end.month) + " พ.ศ. " + NatToString(ConvertToBuddhistYear(end.year));
    }
    var list := BuildParticipantsList(form.students, form.teachers);
    var combined := Join(list, "\n");
    replacements := map[
      DepartmentKey := form.department,
      SubmissionDateKey := submission,
      SubjectKey := form.subject,
      ActivityNameKey := form.activityName,
      LocationKey := form.location,
      ActivityDateKey := activityDate,
      ParticipantsKey := combined,
      IssuerNameKey := form.issuerName,
      IssuerPositionKey := form.issuerPosition
    ];
  }

  // ---------------------------------------------------------------------
  // Download

  /** What `download` answers: an error status with its message, or the
      file sent as an attachment. */
  datatype Response =
    | Failure(status: int, message: string)
    | Attachment(path: string, mimetype: string, downloadName: string)

  const OutputDir: string := "Exported"
  const DocxMimeType: string := "application/vnd.openxmlformats-officedocument.wordprocessingml.document"
  const PdfMimeType: string := "application/pdf"

  predicate IsDownloadType(filetype: string) {
    filetype == "docx" || filetype == "pdf"
  }

  /** `download`: an unknown file type is refused with 400 before the file
      system is consulted; a known type whose output file is missing gets
      404; otherwise the file is sent with the MIME type of its kind.
      `existing` is the set of paths that exist. */
  method Download(filetype: string, existing: set<string>) returns (r: Response)
    ensures r.Failure? && r.status == 400 <==> !IsDownloadType(filetype)
    ensures r.Failure? && r.status == 404
            <==> IsDownloadType(filetype) && OutputDir + "/Output." + filetype !in existing
    ensures r.Failure? ==> r.status == 400 || r.status == 404
    ensures r.Failure? ==> r.message == if r.status == 400 then "Invalid file type" else "File not found"
    ensures IsDownloadType(filetype) && OutputDir + "/Output." + filetype in existing ==> r.Attachment?
    ensures r.Attachment? ==>
      && r.path == OutputDir + "/Output." + filetype && r.path in existing
      && r.downloadName == "Output." + filetype
      && r.mimetype == (if filetype == "docx" then DocxMimeType else PdfMimeType)
  {
    if !IsDownloadType(filetype) {
      return Failure(400, "Invalid file type");
    }
    var filename := "Output." + filetype;
    var filepath := OutputDir + "/" + filename;
    assert filepath == OutputDir + "/Output." + filetype;
    if filepath !in existing {
      return Failure(404, "File not found");
    }
    var mimeTypes := map["docx" := DocxMimeType, "pdf" := PdfMimeType];
    return Attachment(filepath, mimeTypes[filetype], filename);
  }
}
