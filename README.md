# ThaiGovDocs narrative engine, modelled in Dafny

ThaiGovDocs fills in a Thai government memo asking permission to take
students to an activity. The memo text is built twice, once in each copy of
the same narrative engine:

- **In the browser** (`static/script.js`). A roster store keeps the student
  and teacher lists. Adding a record checks its names. Removing a record
  filters it out by id. The issuer fields are derived from the first
  teacher. `updatePreview` then writes the narrative into the preview pane:
  - an opening clause;
  - a one-day or multi-day date clause in Thai with a Buddhist-era year;
  - a section of participant lines, numbered first across the students and
    then across the teachers.
- **On the Flask server** (`app.py`). `generate_document` builds the date
  clause and the participant list again, in slightly different formats, as
  replacements for template placeholders. `download` decides between 400,
  404 and sending the file.

The Dafny project has six modules:

- `Text` (`text.dfy`): decimal rendering of numbers and reading them back,
  JavaScript's `trim`, concatenation, Python's `str.join`, and a field
  splitter used to read formatted text back.
- `Calendar` (`calendar.dfy`): dates and the Thai month table.
  - The table is `thaiMonths` in static/script.js:10-14 and `THAI_MONTHS` in
    app.py:19-23. The two copies are identical, so it is defined once here.
- `Records` (`records.dfy`): student, teacher and issuer records, the entry
  text that both copies print for a record, and removal by id.
- `ClientScript` (`client_script.dfy`): the browser script.
  - `RosterStore` is a class whose fields are the two rosters and the two
    issuer fields. Its methods change those fields in place.
  - `FormatThaiDate` models `formatThaiDate` (static/script.js:156-159).
  - `ActivityDateClause` is the date clause (static/script.js:182-187).
  - `ResolveIssuer` is the issuer `updateIssuerInfo` leaves behind
    (static/script.js:125-133).
  - `ComposeContent` is the whole narrative text (static/script.js:175-203).
  - `UpdatePreview` builds the narrative with the script's `+=` steps and
    `forEach` loops, and is proved equal to `ComposeContent`.
- `ServerApp` (`server_app.dfy`): the server functions.
  - `ConvertToBuddhistYear` models `convert_to_buddhist_year` (app.py:25-26).
  - `FormatThaiDate` models `format_thai_date` (app.py:28-29).
  - `ActivityDateStr` is `activity_date_str` (app.py:90-93).
  - `ParticipantLines` is the finished `participants_list` (app.py:96-107).
  - `BuildParticipantsList` runs the two `enumerate` loops and is proved
    equal to `ParticipantLines`.
  - `Download` takes the set of existing paths as an input.
- `Consistency` (`consistency.dfy`): how the preview and the document
  agree, and where they differ.

Three behaviours of the code are easy to misread:

- **Removing a teacher keeps the issuer.** `addTeacher` calls
  `updateIssuerInfo` (static/script.js:89). `removeTeacher`
  (static/script.js:96-99) does not, so the issuer fields keep whatever they
  held, even when the teacher removed was the issuer.
  - `RemoveTeacher` states this: the issuer is unchanged.
  - `IssuerAfterRemovingFirst` states what the next re-derivation gives.
- **Removal drops every match.** `filter` (static/script.js:42 and 97) drops
  EVERY entry with the given id. Ids come from `Date.now()`, so two records
  can share one. `Without` states this general behaviour.
- **The two date formats differ.** The browser's `formatThaiDate`
  (static/script.js:158) writes "พ.ศ." before the year. The server's
  `format_thai_date` (app.py:29) does not. As a result, a one-day activity
  reads differently in the preview and in the document
  (`SingleDayClausesDiffer`).

## Model

| member | source | states |
|---|---|---|
| `Text.NatToString` | app.py:29 | a number renders as a non-empty string of decimal digits with no leading zero |
| `Text.ParseNatToString` | app.py:29 | the decimal text of a number reads back as that number |
| `Text.NatToStringInjective` | static/script.js:195 | distinct numbers render as distinct texts, so each line number shows which position it holds |
| `Text.Trim` | static/script.js:38 | `trim` yields a slice of the input that has only whitespace before and after it, and starts and ends with a visible character when it is non-empty |
| `Text.TrimNonEmptyIff` | static/script.js:38 | a trimmed string is non-empty exactly when the input has a non-whitespace character |
| `Text.SplitJoin` | app.py:109 | joining fields that contain no separator and splitting the result at the separator gives the fields back |
| `Calendar.MonthName` | static/script.js:10-14 | every month name is non-empty and contains no space |
| `Calendar.MonthOfNameInverse` | app.py:19-23 | the twelve month names are pairwise distinct, so a month's name identifies that month |
| `Records.ParticipantEntries` | app.py:96-107 | there is exactly one participant entry per student and per teacher |
| `Records.Without` | static/script.js:42 | filtering by id keeps exactly the entries whose id differs, and returns the roster unchanged when no entry has that id |
| `Records.WithoutAppend` | static/script.js:97 | filtering distributes over concatenation, so the kept entries stay in their original relative order |
| `ClientScript.ValidateStudentData` | static/script.js:37-39 | a student is accepted exactly when both first and last name contain a visible character |
| `ClientScript.ValidateTeacherData` | static/script.js:92-94 | a teacher is accepted exactly when both first and last name contain a visible character |
| `ClientScript.IssuerIgnoresLaterTeachers` | static/script.js:125-133 | once a teacher exists, adding another never changes the derived issuer, whatever the issuer fields held: the issuer follows the first teacher |
| `ClientScript.IssuerAfterRemovingFirst` | static/script.js:125-133 | after the first teacher is removed, the next derivation makes the second teacher the issuer, provided the two ids differ |
| `ClientScript.FormatThaiDateFields` | static/script.js:156-159 | a formatted date consists of four space-separated fields: day, month name, "พ.ศ.", and year plus 543 |
| `ClientScript.FormatThaiDateRoundTrip` | static/script.js:156-159 | a formatted date reads back as the same date |
| `ClientScript.FormatThaiDateInjective` | static/script.js:156-159 | two dates format alike exactly when they are equal |
| `ClientScript.DateClauseSingleDayIff` | static/script.js:182-187 | the date clause opens with "ในวันที่ " exactly when the start and end dates are equal, and the rest of a one-day clause reads back as that day |
| `ClientScript.MultiDayClauseFields` | static/script.js:185-186 | a range clause consists of seven fields: the start day, a dash, and the day, month name and Buddhist year of the end date |
| `ClientScript.MultiDayClauseReadsBack` | static/script.js:185-186 | a range clause reads back as the start day and the day, month and year of the end date |
| `ClientScript.MultiDayClauseDeterminedBy` | static/script.js:182-187 | two range clauses are equal exactly when the start days are equal and the end dates are equal; the start date's month and year are not shown |
| `ClientScript.ParticipantNumbering` | static/script.js:194-202 | the preview has S + T participant lines: student i is numbered i + 1 and teacher j is numbered S + j + 1 |
| `ClientScript.ParticipantSectionEmptyIff` | static/script.js:190-203 | the participant section is empty exactly when both rosters are empty |
| `ClientScript.NumberedLinesSnoc` | static/script.js:194-202 | one more entry extends the numbered text by exactly that entry's line, numbered one past the previous count |
| `ClientScript.RosterStore.constructor` | static/script.js:4-7 | the store starts with both rosters empty |
| `ClientScript.RosterStore.AddStudent` | static/script.js:17-35 | a valid student is appended at the end and everything else stays the same; an invalid one is rejected and nothing changes |
| `ClientScript.RosterStore.RemoveStudent` | static/script.js:41-44 | the student roster becomes the id filter of the old one; the teacher roster and the issuer stay the same |
| `ClientScript.RosterStore.AddTeacher` | static/script.js:72-90 | a valid teacher is appended at the end and the issuer becomes the one derived from the FIRST teacher, which is the previous first teacher whenever there was one; an invalid teacher changes nothing |
| `ClientScript.RosterStore.RemoveTeacher` | static/script.js:96-99 | the teacher roster becomes the id filter of the old one; the student roster and the issuer fields stay the same |
| `ClientScript.RosterStore.UpdateIssuerInfo` | static/script.js:125-133 | the issuer is derived from the first teacher, or left as it was when there is no teacher; the rosters stay the same |
| `ClientScript.RosterStore.UpdatePreview` | static/script.js:161-203 | the built narrative equals the opening clause, then the date clause, then the participant section; the pane shows the department, the formatted date, subject plus activity name, the issuer name in parentheses (or nothing when it is empty), and the position |
| `ClientScript.RosterStore.AppendDateClause` | static/script.js:182-187 | appending the one-day text, or the two range pieces, adds exactly the date clause |
| `ClientScript.RosterStore.AppendParticipantLines` | static/script.js:194-202 | the two loops add exactly the numbered lines of every student and then every teacher |
| `ServerApp.FormatThaiDateFields` | app.py:28-29 | a server date consists of three space-separated fields, day, month name and year plus 543, with no era marker |
| `ServerApp.FormatThaiDateRoundTrip` | app.py:25-29 | a server date reads back as the same date once 543 is taken off the year |
| `ServerApp.FormatThaiDateInjective` | app.py:28-29 | two dates format alike exactly when they are equal |
| `ServerApp.ActivityDateStrSingleDay` | app.py:90-93 | the clause opens with "ในวันที่ " exactly when the activity lasts one day, and the rest of a one-day clause reads back as that day |
| `ServerApp.ParticipantLinesNumbering` | app.py:96-107 | the list has S + T lines: student i is numbered i + 1 and teacher j is numbered S + j + 1, each indented by three spaces |
| `ServerApp.BuildParticipantsList` | app.py:96-107 | the two `enumerate` loops produce exactly the participant lines, with the teachers numbered from the list's length plus one |
| `ServerApp.CombinedListEmptyIff` | app.py:109 | the combined list is empty exactly when both rosters are empty |
| `ServerApp.CombinedListSplit` | app.py:109 | when no field holds a newline, cutting the combined list at its newlines gives back the participant lines |
| `ServerApp.GenerateDocument` | app.py:83-122 | the replacements cover exactly the nine placeholders; the submission date, the date clause and the joined participant list are filled in as described above, and the remaining placeholders take the form values |
| `ServerApp.Download` | app.py:167-186 | a type other than docx or pdf gets 400 whatever the file system holds; a known type whose output file is missing gets 404; otherwise the existing file is always sent, under its own name, with the MIME type of its kind; no other status occurs |
| `Consistency.MultiDayClausesAgree` | app.py:92-93 | a multi-day activity gets the same clause in the preview and in the document |
| `Consistency.FormatsDifferByEra` | app.py:29 | the browser's date is the server's date with "พ.ศ. " inserted before the year |
| `Consistency.SingleDayClausesDiffer` | app.py:90-91 | a one-day clause is five characters longer in the preview than in the document, so the two never match |
| `Consistency.DateFormatsNotInterchangeable` | static/script.js:158 | neither copy's date reader accepts the other copy's dates |
| `Consistency.LineLayouts` | static/script.js:201 | a preview line is the document line with the same number and entry, with the three-space indent replaced by a line break and sixteen spaces |
| `Consistency.SameNumbering` | app.py:103 | the preview and the document give each participant the same number and the same entry |
| `Consistency.DateExample` | static/script.js:156-159 | 15 January 2024 reads "15 มกราคม พ.ศ. 2567" in the browser and "15 มกราคม 2567" on the server |
| `Consistency.SingleDayExample` | static/script.js:183 | a one-day activity on 10 March 2024 gives "ในวันที่ 10 มีนาคม พ.ศ. 2567" in the preview and "ในวันที่ 10 มีนาคม 2567" in the document |
| `Consistency.MultiDayExample` | static/script.js:185-186 | 10 to 12 March 2024 gives "ระหว่างวันที่ 10 - 12 มีนาคม พ.ศ. 2567" in both copies |

## Left out

- Page access is not modelled:
  - the reads in `collectFormData` (static/script.js:136-154);
  - the list rendering in `updateStudentList` and `updateTeacherList`;
  - `clearStudentForm` and `clearTeacherForm`;
  - the `alert` on rejected input;
  - the event wiring.

  Form values are method parameters instead, and the preview pane's
  strings are returned as a `Preview` record.
- The replacement of line breaks by `<br>` when the preview is written into
  the page (static/script.js:205). The model states the text before that
  replacement.
- `generateDocument` (static/script.js:209-235) is left out: it is a network
  `fetch` followed by navigation.
- `Date.now()` ids: `AddStudent` and `AddTeacher` take the id as a
  parameter. The model allows two records to share an id, and `Without`
  then removes both.
- Parsing date strings is left out: `new Date(...)` with its time-zone
  effects, and `datetime.strptime` with its errors. Dates are already-valid
  (year, month, day) triples with a year from 1 to 9999, the four-digit
  years `%Y` reads, and `getTime() ===` is equality of those
  triples.
- `ServerApp.GenerateDocument` requires valid dates because the server's
  failure path for an unparsable date string (an exception turned into a
  500 by the `generate` route) is not modelled.
- python-docx is left out:
  - loading the template;
  - `replace_text_in_document` and `set_document_font`;
  - saving `Exported/Output.docx`.

  `GenerateDocument` stops at the replacement map.
- PDF conversion (`docx2pdf`, `pythoncom`, the `sys.platform` branch) and
  the JSON replies of the `generate` route.
- Flask plumbing is left out: the routes, `request.get_json`, `jsonify`,
  `send_file`, `render_template` and `os.makedirs`. The identity
  `departments` table only feeds the form's choices and is also left out.
- `ServerApp.Download` joins paths with "/", as `os.path.join` does on
  POSIX systems. Windows separators are not modelled.
