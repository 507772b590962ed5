/** How the browser preview and the generated document relate. The two
    copies of the narrative agree on multi-day clauses and on the numbered
    participants, and disagree on the single-day date: the browser writes
    "พ.ศ." before the year and the server does not. */
module Consistency {
  import opened Text
  import opened Calendar
  import opened Records
  import ClientScript
  import ServerApp

  /** A multi-day activity gets the same clause in the preview and in the
      document. */
  lemma MultiDayClausesAgree(start: Date, end: Date)
    requires ValidDate(start) && ValidDate(end) && start != end
    ensures ClientScript.ActivityDateClause(start, end) == ServerApp.ActivityDateStr(start, end)
  {
  }

  /** The browser's date is the server's date with "พ.ศ. " inserted before
      the year. */
  lemma FormatsDifferByEra(d: Date)
    requires ValidDate(d)
    ensures var day, month := NatToString(d.day), MonthName(d.month);
      var year := NatToString(d.year + 543);
      && ServerApp.FormatThaiDate(d) == day + " " + month + " " + year
      && ClientScript.FormatThaiDate(d) == day + " " + month + " " + "พ.ศ. " + year
  {
  }

  /** A one-day activity never gets the same clause in the preview as in the
      document: the preview's clause is five characters longer. */
  lemma SingleDayClausesDiffer(d: Date)
    requires ValidDate(d)
    ensures |ClientScript.ActivityDateClause(d, d)| == |ServerApp.ActivityDateStr(d, d)| + 5
    ensures ClientScript.ActivityDateClause(d, d) != ServerApp.ActivityDateStr(d, d)
  {
    FormatsDifferByEra(d);
  }

  /** Neither reader accepts the other copy's dates: the browser's text has
      four fields and the server's three. */
  lemma DateFormatsNotInterchangeable(d: Date)
    requires ValidDate(d)
    ensures ServerApp.ParseThaiDate(ClientScript.FormatThaiDate(d)) == None
    ensures ClientScript.ParseThaiDate(ServerApp.FormatThaiDate(d)) == None
  {
    ClientScript.FormatThaiDateFields(d);
    ServerApp.FormatThaiDateFields(d);
  }

  /** A preview line is the document line for the same number and entry,
      with the server's three-space indent replaced by a line break and the
      browser's sixteen-space indent. */
  lemma LineLayouts(n: nat, entry: string)
    ensures ClientScript.ParticipantLine(n, entry)
            == "\n" + ClientScript.Indent + ServerApp.ServerLine(n, entry)[|ServerApp.LineIndent|..]
  {
    var tail := NatToString(n) + ". " + entry;
    assert ServerApp.ServerLine(n, entry) == ServerApp.LineIndent + tail;
    assert ServerApp.ServerLine(n, entry)[|ServerApp.LineIndent|..] == tail;
  }

  /** Both copies number the same participants in the same order: the k-th
      preview line and the k-th document line carry the same number and the
      same entry. */
  lemma SameNumbering(students: seq<Student>, teachers: seq<Teacher>)
    ensures var preview := ClientScript.NumberedLines(ParticipantEntries(students, teachers));
      var document := ServerApp.ParticipantLines(students, teachers);
      && |preview| == |document| == |students| + |teachers|
      && forall k :: 0 <= k < |preview| ==>
           preview[k] == "\n" + ClientScript.Indent + document[k][|ServerApp.LineIndent|..]
  {
    var entries := ParticipantEntries(students, teachers);
    forall k | 0 <= k < |entries|
      ensures ClientScript.NumberedLines(entries)[k]
              == "\n" + ClientScript.Indent + ServerApp.ParticipantLines(students, teachers)[k][|ServerApp.LineIndent|..]
    {
      LineLayouts(k + 1, entries[k]);
    }
  }

  /** The decimal texts the worked examples below use. */
  lemma ExampleNumbers()
    ensures NatToString(2567) == "2567"
    ensures NatToString(15) == "15" && NatToString(10) == "10" && NatToString(12) == "12"
  {
    assert NatToString(25) == "25";
    assert NatToString(256) == "256";
  }

  /** Worked example: 15 January 2024 in either copy's format. */
  lemma DateExample()
    ensures ClientScript.FormatThaiDate(Date(2024, 1, 15)) == "15 มกราคม พ.ศ. 2567"
    ensures ServerApp.FormatThaiDate(Date(2024, 1, 15)) == "15 มกราคม 2567"
  {
    ExampleNumbers();
  }

  /** Worked example: a one-day activity on 10 March 2024. */
  lemma SingleDayExample()
    ensures ClientScript.ActivityDateClause(Date(2024, 3, 10), Date(2024, 3, 10))
            == "ในวันที่ 10 มีนาคม พ.ศ. 2567"
    ensures ServerApp.ActivityDateStr(Date(2024, 3, 10), Date(2024, 3, 10))
            == "ในวันที่ 10 มีนาคม 2567"
  {
    ExampleNumbers();
  }

  /** Worked example: an activity from 10 to 12 March 2024, alike in both copies. */
  lemma MultiDayExample()
    ensures ServerApp.ActivityDateStr(Date(2024, 3, 10), Date(2024, 3, 12))
            == "ระหว่างวันที่ 10 - 12 มีนาคม พ.ศ. 2567"
    ensures ClientScript.ActivityDateClause(Date(2024, 3, 10), Date(2024, 3, 12))
            == "ระหว่างวันที่ 10 - 12 มีนาคม พ.ศ. 2567"
  {
    ExampleNumbers();
    MultiDayClausesAgree(Date(2024, 3, 10), Date(2024, 3, 12));
  }
}
