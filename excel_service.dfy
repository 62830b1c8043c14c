/**
 * The spreadsheet exporter's data shaping: the array of rows handed to the
 * sheet writer (ten header rows, one row per entry oldest first, eight
 * trailer rows with the total), the column widths and the file name.
 */
module ExcelService {
  import opened Wrappers
  import opened JsText
  import opened StorageService
  import opened TimeUtils

  /** One sheet row: the text of its cells from the first column on. */
  type Row = seq<string>

  const ColumnLabels: Row :=
    ["Date", "Day", "Time In", "Time Out", "Break (min)", "Total Hours", "Task/Project Description"]

  /** `ws['!cols']`: the width of each column, in characters. */
  const ColumnWidths: seq<nat> := [12, 10, 10, 10, 12, 12, 45]

  const SheetName: string := "Timesheet"

  const NoEntriesMessage: string := "No entries to export"

  /** `s || 'N/A'`. */
  function OrNA(s: string): string {
    if s == "" then "N/A" else s
  }

  /** The ten rows above the entries: titles, profile, pay period, generation time, column labels. */
  function HeaderRows(employeeName: string, studentNumber: string, startDate: string, endDate: string,
                      generated: string): (rows: seq<Row>)
    ensures |rows| == 10
    ensures forall i :: 0 <= i < 10 ==> |rows[i]| <= |ColumnLabels|
  {
    [ ["McMaster University"],
      ["Manufacturing Innovation Technology Lab (MITL)"],
      ["Student Employee Timesheet"],
      [""],
      ["Student Name: " + OrNA(employeeName)],
      ["Student Number: " + OrNA(studentNumber)],
      ["Pay Period: " + startDate + " to " + endDate],
      ["Generated: " + generated],
      [""],
      ColumnLabels ]
  }

  /** The seven cells of an entry, in column order. */
  function EntryRow(e: TimesheetEntry): (row: Row)
    ensures |row| == |ColumnLabels|
  {
    [e.date, e.day, e.timeIn, e.timeOut, e.breakMinutes, e.hours, e.task]
  }

  /** `total.toFixed(2)`; NaN prints as "NaN". */
  function TotalText(total: Option<int>): (s: string)
    ensures total.Some? ==> s == Fixed2Text(total.value) && Fixed2Value(s) == total
    ensures total.None? ==> s == "NaN"
  {
    match total
    case Some(v) => Fixed2RoundTrip(v); Fixed2Text(v)
    case None => "NaN"
  }

  const TotalLabel: string := "TOTAL HOURS:"

  /** Five empty cells, the label, then the total of all hours to two decimals. */
  function TotalsLine(total: Option<int>): Row {
    ["", "", "", "", "", TotalLabel, TotalText(total)]
  }

  /** The rows after the totals line: two signature lines and a notes label. */
  const SignatureRows: seq<Row> := [
    [""],
    ["Student Signature: _________________________", "", "", "Date: _________________________"],
    [""],
    ["Supervisor Signature: _________________________", "", "", "Date: _________________________"],
    [""],
    ["Notes/Comments:"] ]

  /** The eight rows below the entries: a blank row, the totals line and the signature rows. */
  function TrailerRows(total: Option<int>): (rows: seq<Row>)
    ensures |rows| == 8
    ensures forall i :: 0 <= i < 8 ==> |rows[i]| <= |ColumnLabels|
  {
    [[""], TotalsLine(total)] + SignatureRows
  }

  /** The pay period is read off the list ends: its last element's date ... */
  function StartDate(es: seq<TimesheetEntry>): (date: string)
    ensures es == [] ==> date == "N/A"
    ensures es != [] ==> date == es[|es| - 1].date
  {
    if |es| > 0 then es[|es| - 1].date else "N/A"
  }

  /** ... to its first element's date, whatever the dates in between. */
  function EndDate(es: seq<TimesheetEntry>): (date: string)
    ensures es == [] ==> date == "N/A"
    ensures es != [] ==> date == es[0].date
  {
    if |es| > 0 then es[0].date else "N/A"
  }

  /** One row per entry in reverse list order: the last entry's row comes first. */
  function DataRows(es: seq<TimesheetEntry>): (rows: seq<Row>)
    ensures |rows| == |es|
    ensures forall i :: 0 <= i < |es| ==> rows[i] == EntryRow(es[|es| - 1 - i])
  {
    if es == [] then []
    else DataRows(es[1..]) + [EntryRow(es[0])]
  }

  /** Growing a suffix of the list by one entry at its front adds that entry's row at the end. */
  lemma DataRowsStep(es: seq<TimesheetEntry>, k: nat)
    requires k < |es|
    ensures DataRows(es[k..]) == DataRows(es[k + 1..]) + [EntryRow(es[k])]
  {
    assert es[k..][1..] == es[k + 1..];
  }

  /** The row array for a list of entries: header, data rows, trailer. */
  function SheetRows(es: seq<TimesheetEntry>, employeeName: string, studentNumber: string,
                     generated: string): (rows: seq<Row>)
    ensures |rows| == 10 + |es| + 8
  {
    HeaderRows(employeeName, studentNumber, StartDate(es), EndDate(es), generated)
      + DataRows(es) + TrailerRows(TotalHours(es))
  }

  /**
   * Pushes one row per entry onto `rows`, walking a reversed copy of the
   * list from its front.
   */
  method AppendDataRows(prefix: seq<Row>, entries: seq<TimesheetEntry>) returns (rows: seq<Row>)
    ensures rows == prefix + DataRows(entries)
  {
    var n := |entries|;
    rows := prefix;
    var i := 0;
    while i < n
      invariant 0 <= i <= n
      invariant rows == prefix + DataRows(entries[n - i..])
    {
      DataRowsStep(entries, n - 1 - i);
      rows := rows + [EntryRow(entries[n - 1 - i])];
      i := i + 1;
    }
    assert entries[0..] == entries;
  }

  /**
   * The row array as `exportToExcel` builds it: the header rows, then one
   * pushed row per entry, then the trailer.
   */
  method BuildRows(entries: seq<TimesheetEntry>, employeeName: string, studentNumber: string,
                   generated: string) returns (rows: seq<Row>)
    ensures rows == SheetRows(entries, employeeName, studentNumber, generated)
  {
    var n := |entries|;
    var startDate := if n > 0 then entries[n - 1].date else "N/A";
    var endDate := if n > 0 then entries[0].date else "N/A";
    var header := HeaderRows(employeeName, studentNumber, startDate, endDate, generated);
    rows := AppendDataRows(header, entries);
    var totalHours := TotalHours(entries);
    rows := rows + TrailerRows(totalHours);
  }

  /**
   * The part of the file name made from the employee name: each whitespace
   * run becomes '_', and only an empty name falls back to "Student".
   */
  function NamePart(employeeName: string): (part: string)
    ensures part != "" && NoWhitespace(part)
    ensures employeeName == "" ==> part == "Student"
    ensures employeeName != "" ==> Visible(part) == Visible(employeeName) && |part| <= |employeeName|
    ensures employeeName != "" && NoWhitespace(employeeName) ==> part == employeeName
    ensures employeeName != "" ==> part == ReplaceWhitespaceRuns(employeeName)
  {
    var replaced := ReplaceWhitespaceRuns(employeeName);
    ReplaceKeepsVisible(employeeName);
    assert NoWhitespace(employeeName) ==> replaced == employeeName by {
      if NoWhitespace(employeeName) {
        ReplaceWithoutWhitespace(employeeName);
      }
    }
    if replaced == "" then "Student" else replaced
  }

  /** A name of two words gives its words joined by one '_', however wide the gap. */
  lemma NamePartJoinsWords(first: string, gap: string, last: string)
    requires first == [] || !IsWhitespace(first[|first| - 1])
    requires gap != [] && AllWhitespace(gap)
    requires last == [] || !IsWhitespace(last[0])
    ensures NamePart(first + gap + last) == ReplaceWhitespaceRuns(first) + "_" + ReplaceWhitespaceRuns(last)
  {
    ReplaceRunBetween(first, gap, last);
    assert (first + gap + last)[|first|] == gap[0];
  }

  /** The pieces of the name "John  Smith". */
  lemma JohnSmithPieces()
    ensures NoWhitespace("John") && NoWhitespace("Smith") && AllWhitespace("  ")
    ensures "John" + "  " + "Smith" == "John  Smith" && "John" + "_" + "Smith" == "John_Smith"
  {
  }

  /** "John  Smith" gives the file name part "John_Smith". */
  lemma NamePartExample(name: string)
    requires name == "John  Smith"
    ensures NamePart(name) == "John_Smith"
  {
    JohnSmithPieces();
    ReplaceWithoutWhitespace("John");
    ReplaceWithoutWhitespace("Smith");
    NamePartJoinsWords("John", "  ", "Smith");
  }

  /** The file name for "John  Smith" exported on 2024-01-10. */
  lemma FileNameExample(name: string, isoDate: string)
    requires name == "John  Smith" && isoDate == "2024-01-10"
    ensures FileName(name, isoDate) == "MITL_Timesheet_John_Smith_2024-01-10.xlsx"
  {
    NamePartExample(name);
  }

  /** `MITL_Timesheet_<name part>_<date>.xlsx`. */
  function FileName(employeeName: string, isoDate: string): (name: string)
    ensures |name| > 20 && name[..15] == "MITL_Timesheet_" && name[|name| - 5..] == ".xlsx"
    ensures name[15..|name| - 5] == NamePart(employeeName) + "_" + isoDate
  {
    var middle := NamePart(employeeName) + "_" + isoDate;
    var name := "MITL_Timesheet_" + middle + ".xlsx";
    assert name == "MITL_Timesheet_" + NamePart(employeeName) + "_" + isoDate + ".xlsx";
    assert name[15..|name| - 5] == middle;
    name
  }

  /** What the exporter produces before any library call: one sheet, its rows, widths and file name. */
  datatype Workbook = Workbook(sheetName: string, rows: seq<Row>, columnWidths: seq<nat>, fileName: string)

  /**
   * exportToExcel up to the sheet writer: an empty list is rejected before
   * any row or file exists; otherwise the rows, widths and file name.
   * `generated` and `isoDate` are the clock's local and ISO renderings of now.
   */
  method ExportToExcel(entries: seq<TimesheetEntry>, employeeName: string, studentNumber: string,
                       generated: string, isoDate: string) returns (r: Result<Workbook>)
    ensures r.Err? <==> entries == []
    ensures r.Err? ==> r.message == NoEntriesMessage
    ensures r.Ok? ==> r.value.rows == SheetRows(entries, employeeName, studentNumber, generated)
    ensures r.Ok? ==> r.value.sheetName == SheetName && r.value.columnWidths == ColumnWidths
    ensures r.Ok? ==> r.value.fileName == FileName(employeeName, isoDate)
  {
    if |entries| == 0 {
      return Err(NoEntriesMessage);
    }
    var rows := BuildRows(entries, employeeName, studentNumber, generated);
    r := Ok(Workbook(SheetName, rows, ColumnWidths, FileName(employeeName, isoDate)));
  }

  /** Every row fits the seven columns the widths and labels describe. */
  lemma RowsFitColumns(rows: seq<Row>, es: seq<TimesheetEntry>, name: string, number: string, generated: string)
    requires rows == SheetRows(es, name, number, generated)
    ensures |ColumnWidths| == |ColumnLabels| == 7
    ensures forall i :: 0 <= i < |rows| ==> |rows[i]| <= |ColumnWidths|
  {
    var n := |es|;
    var header := HeaderRows(name, number, StartDate(es), EndDate(es), generated);
    var data := DataRows(es);
    var trailer := TrailerRows(TotalHours(es));
    forall i | 0 <= i < |rows| ensures |rows[i]| <= 7 {
      if i < 10 {
        assert rows[i] == header[i];
      } else if i < 10 + n {
        assert rows[i] == data[i - 10];
      } else {
        assert rows[i] == trailer[i - 10 - n];
      }
    }
  }

  /** The profile lines print "N/A" for an empty name or student number. */
  lemma ProfileRows(rows: seq<Row>, es: seq<TimesheetEntry>, name: string, number: string, generated: string)
    requires rows == SheetRows(es, name, number, generated)
    ensures rows[4] == ["Student Name: " + (if name == "" then "N/A" else name)]
    ensures rows[5] == ["Student Number: " + (if number == "" then "N/A" else number)]
  {
    var header := HeaderRows(name, number, StartDate(es), EndDate(es), generated);
    IndexOfThree(header, DataRows(es), TrailerRows(TotalHours(es)), 4);
    IndexOfThree(header, DataRows(es), TrailerRows(TotalHours(es)), 5);
  }

  /** The pay period runs from the last listed entry's date to the first's. */
  lemma PayPeriodRow(rows: seq<Row>, es: seq<TimesheetEntry>, name: string, number: string, generated: string)
    requires rows == SheetRows(es, name, number, generated)
    requires es != []
    ensures rows[6] == ["Pay Period: " + es[|es| - 1].date + " to " + es[0].date]
  {
    var header := HeaderRows(name, number, StartDate(es), EndDate(es), generated);
    IndexOfThree(header, DataRows(es), TrailerRows(TotalHours(es)), 6);
  }

  /** Where an index of a three-part concatenation lands. */
  lemma IndexOfThree<T>(a: seq<T>, b: seq<T>, c: seq<T>, i: int)
    requires 0 <= i < |a| + |b| + |c|
    ensures i < |a| ==> (a + b + c)[i] == a[i]
    ensures |a| <= i < |a| + |b| ==> (a + b + c)[i] == b[i - |a|]
    ensures |a| + |b| <= i ==> (a + b + c)[i] == c[i - |a| - |b|]
  {
  }

  lemma TrailerTotalLine(total: Option<int>)
    ensures TrailerRows(total)[1] == TotalsLine(total)
  {
  }

  /** The row after the entries and a blank row is the totals line. */
  lemma TotalsRow(rows: seq<Row>, es: seq<TimesheetEntry>, name: string, number: string, generated: string)
    requires rows == SheetRows(es, name, number, generated)
    ensures rows[10 + |es| + 1] == ["", "", "", "", "", TotalLabel, TotalText(TotalHours(es))]
  {
    var header, data, trailer := HeaderRows(name, number, StartDate(es), EndDate(es), generated), DataRows(es), TrailerRows(TotalHours(es));
    assert |header| == 10 && |data| == |es|;
    IndexOfThree(header, data, trailer, |header| + |data| + 1);
    TrailerTotalLine(TotalHours(es));
  }

  /** "8.00" is what `toFixed(2)` writes for 800 hundredths, and it reads back as 800. */
  lemma EightHoursText()
    ensures Fixed2Text(800) == "8.00" && Fixed2Value("8.00") == Some(800)
  {
    assert NatText(8) == "8";
    assert UnsignedFixed2(800) == "8.00";
    Fixed2RoundTrip(800);
  }

  /** Exporting one entry of 8 hours: one data row with its seven fields and a total of "8.00". */
  lemma SingleEntryExample(rows: seq<Row>, name: string, number: string, generated: string)
    requires rows == SheetRows([TimesheetEntry(1, "2024-01-10", "09:00", "17:00", "0", "X", "Wed", "8.00")],
                               name, number, generated)
    ensures |rows| == 19
    ensures rows[10] == ["2024-01-10", "Wed", "09:00", "17:00", "0", "8.00", "X"]
    ensures rows[11] == [""] && rows[12] == ["", "", "", "", "", "TOTAL HOURS:", "8.00"]
  {
    var e := TimesheetEntry(1, "2024-01-10", "09:00", "17:00", "0", "X", "Wed", "8.00");
    EightHoursText();
    var total := TotalHours([e]);
    assert total == Some(800) by {
      assert [e][..0] == [];
      assert HoursOrZero(e) == Some(800);
    }
    assert TotalText(total) == "8.00";
    assert rows[10] == DataRows([e])[0];
    assert rows[11] == rows[11..][0];
    TotalsRow(rows, [e], name, number, generated);
  }
}
