/**
 * The single-file timesheet app: its component state (profile, entry list,
 * entry form, the current view) and the global slot it saves to, the entry
 * handlers that update them, and the spreadsheet export with its row style
 * bands.
 */
module TimesheetApp {
  import opened Wrappers
  import opened JsText
  import opened JsDate
  import opened StorageService
  import opened TimeUtils
  import opened ExcelService

  // ----- Ordering the list: newest date first

  /**
   * The number the sort comparator subtracts: the entry's day number. An
   * unparsable date makes the comparator NaN, which the sort reads as "equal";
   * the model ranks such a date as day 0.
   */
  function DateKey(e: TimesheetEntry): (k: int)
    ensures ParseDate(e.date).Some? ==> k == ParseDate(e.date).value
    ensures ParseDate(e.date).None? ==> k == 0
  {
    match ParseDate(e.date)
    case Some(d) => d
    case None => 0
  }

  /** The comparator's view of an entry: a number, larger meaning listed earlier. */
  type Key = TimesheetEntry -> int

  /** No entry has a larger key than one before it. */
  predicate Descending(s: seq<TimesheetEntry>, key: Key) {
    forall i, j :: 0 <= i < j < |s| ==> key(s[i]) >= key(s[j])
  }

  /** Newest first: no entry is dated later than one before it. */
  predicate NewestFirst(s: seq<TimesheetEntry>) {
    Descending(s, DateKey)
  }

  /** Places x after every entry whose key is at least its own: the stable insertion step. */
  function Insert(t: seq<TimesheetEntry>, x: TimesheetEntry, key: Key): (r: seq<TimesheetEntry>)
    ensures |r| == |t| + 1
    ensures multiset(r) == multiset(t) + multiset{x}
  {
    if t == [] then [x]
    else if key(t[0]) < key(x) then [x] + t
    else
      assert t == [t[0]] + t[1..];
      [t[0]] + Insert(t[1..], x, key)
  }

  /** A stable sort, largest key first, by inserting each element in turn. */
  function SortByKey(s: seq<TimesheetEntry>, key: Key): (r: seq<TimesheetEntry>)
    ensures |r| == |s|
    ensures multiset(r) == multiset(s)
  {
    if s == [] then []
    else
      assert s == s[..|s| - 1] + [s[|s| - 1]];
      Insert(SortByKey(s[..|s| - 1], key), s[|s| - 1], key)
  }

  lemma DescendingTail(t: seq<TimesheetEntry>, key: Key)
    requires Descending(t, key) && t != []
    ensures Descending(t[1..], key)
    ensures forall i :: 0 <= i < |t[1..]| ==> key(t[0]) >= key(t[1..][i])
  {
    forall i | 0 <= i < |t[1..]| ensures key(t[0]) >= key(t[1..][i]) {
      assert t[1..][i] == t[i + 1];
    }
  }

  /** A first element no smaller than the rest, in front of a descending list, keeps it descending. */
  lemma DescendingCons(h: TimesheetEntry, rest: seq<TimesheetEntry>, key: Key)
    requires Descending(rest, key)
    requires forall e :: e in rest ==> key(h) >= key(e)
    ensures Descending([h] + rest, key)
  {
    var r := [h] + rest;
    forall i, j | 0 <= i < j < |r| ensures key(r[i]) >= key(r[j]) {
      assert r[j] == rest[j - 1];
      if i > 0 {
        assert r[i] == rest[i - 1];
      } else {
        assert rest[j - 1] in rest;
      }
    }
  }

  lemma {:induction false} InsertDescending(t: seq<TimesheetEntry>, x: TimesheetEntry, key: Key)
    requires Descending(t, key)
    ensures Descending(Insert(t, x, key), key)
  {
    if t == [] {
    } else if key(t[0]) < key(x) {
      forall e | e in t ensures key(x) >= key(e) {
        var i :| 0 <= i < |t| && t[i] == e;
        assert i == 0 || key(t[0]) >= key(t[i]);
      }
      DescendingCons(x, t, key);
    } else {
      var rest := Insert(t[1..], x, key);
      DescendingTail(t, key);
      InsertDescending(t[1..], x, key);
      forall e | e in rest ensures key(t[0]) >= key(e) {
        assert e in multiset(rest);
        assert e in multiset(t[1..]) || e == x;
        if e != x {
          var i :| 0 <= i < |t[1..]| && t[1..][i] == e;
        }
      }
      DescendingCons(t[0], rest, key);
    }
  }

  /** The sorted list is in descending key order. */
  lemma {:induction false} SortIsDescending(s: seq<TimesheetEntry>, key: Key)
    ensures Descending(SortByKey(s, key), key)
  {
    if s != [] {
      SortIsDescending(s[..|s| - 1], key);
      InsertDescending(SortByKey(s[..|s| - 1], key), s[|s| - 1], key);
    }
  }

  /** The entries whose key is k, in list order. */
  function WithKey(s: seq<TimesheetEntry>, key: Key, k: int): (r: seq<TimesheetEntry>)
    ensures forall e :: e in r <==> e in s && key(e) == k
  {
    if s == [] then []
    else
      assert forall e :: e in s <==> e == s[0] || e in s[1..];
      (if key(s[0]) == k then [s[0]] else []) + WithKey(s[1..], key, k)
  }

  lemma {:induction false} WithKeyOfConcat(a: seq<TimesheetEntry>, b: seq<TimesheetEntry>, key: Key, k: int)
    ensures WithKey(a + b, key, k) == WithKey(a, key, k) + WithKey(b, key, k)
  {
    if a != [] {
      assert (a + b)[1..] == a[1..] + b;
      WithKeyOfConcat(a[1..], b, key, k);
    } else {
      assert a + b == b;
    }
  }

  /** No entry of a descending list has a key above its first entry's. */
  lemma NothingAboveFirst(t: seq<TimesheetEntry>, key: Key, k: int)
    requires Descending(t, key) && t != [] && key(t[0]) < k
    ensures WithKey(t, key, k) == []
  {
    forall e | e in t ensures key(e) != k {
      var i :| 0 <= i < |t| && t[i] == e;
      assert i == 0 || key(t[0]) >= key(t[i]);
    }
  }

  lemma WithKeySingle(x: TimesheetEntry, key: Key, k: int)
    ensures WithKey([x], key, k) == if key(x) == k then [x] else []
  {
    assert [x][1..] == [];
  }

  lemma WithKeyCons(x: TimesheetEntry, t: seq<TimesheetEntry>, key: Key, k: int)
    ensures WithKey([x] + t, key, k) == (if key(x) == k then [x] else []) + WithKey(t, key, k)
  {
    assert ([x] + t)[1..] == t;
  }

  /** When x has the largest key it goes in front, and no listed entry shares its key. */
  lemma InsertStableInFront(t: seq<TimesheetEntry>, x: TimesheetEntry, key: Key, k: int)
    requires Descending(t, key) && t != [] && key(t[0]) < key(x)
    ensures WithKey(Insert(t, x, key), key, k) == WithKey(t, key, k) + WithKey([x], key, k)
  {
    WithKeySingle(x, key, k);
    WithKeyCons(x, t, key, k);
    if key(x) == k {
      NothingAboveFirst(t, key, k);
    }
  }

  /** Putting the same entry in front of two lists keeps a split of the entries with key k. */
  lemma WithKeyConsStep(h: TimesheetEntry, rest: seq<TimesheetEntry>, tail: seq<TimesheetEntry>,
                        x: TimesheetEntry, key: Key, k: int)
    requires WithKey(rest, key, k) == WithKey(tail, key, k) + WithKey([x], key, k)
    ensures WithKey([h] + rest, key, k) == WithKey([h] + tail, key, k) + WithKey([x], key, k)
  {
    WithKeyCons(h, rest, key, k);
    WithKeyCons(h, tail, key, k);
  }

  /** Inserting keeps the entries of each key in order, the inserted one last. */
  lemma {:induction false} InsertStable(t: seq<TimesheetEntry>, x: TimesheetEntry, key: Key, k: int)
    requires Descending(t, key)
    ensures WithKey(Insert(t, x, key), key, k) == WithKey(t, key, k) + WithKey([x], key, k)
  {
    if t == [] {
      WithKeySingle(x, key, k);
    } else if key(t[0]) < key(x) {
      InsertStableInFront(t, x, key, k);
    } else {
      DescendingTail(t, key);
      InsertStable(t[1..], x, key, k);
      WithKeyConsStep(t[0], Insert(t[1..], x, key), t[1..], x, key, k);
      assert Insert(t, x, key) == [t[0]] + Insert(t[1..], x, key);
      assert [t[0]] + t[1..] == t;
    }
  }

  /** Stability: the entries of any one key keep their relative order through the sort. */
  lemma {:induction false} SortIsStable(s: seq<TimesheetEntry>, key: Key, k: int)
    ensures WithKey(SortByKey(s, key), key, k) == WithKey(s, key, k)
  {
    if s != [] {
      var front, last := s[..|s| - 1], s[|s| - 1];
      var sorted := SortByKey(front, key);
      SortIsDescending(front, key);
      calc {
        WithKey(SortByKey(s, key), key, k);
        WithKey(Insert(sorted, last, key), key, k);
        { InsertStable(sorted, last, key, k); }
        WithKey(sorted, key, k) + WithKey([last], key, k);
        { SortIsStable(front, key, k); }
        WithKey(front, key, k) + WithKey([last], key, k);
        { WithKeyOfConcat(front, [last], key, k); assert front + [last] == s; }
        WithKey(s, key, k);
      }
    }
  }

  /** Inserting an entry whose key is no larger than any in the list appends it. */
  lemma {:induction false} InsertAtEnd(t: seq<TimesheetEntry>, x: TimesheetEntry, key: Key)
    requires forall i :: 0 <= i < |t| ==> key(t[i]) >= key(x)
    ensures Insert(t, x, key) == t + [x]
  {
    if t != [] {
      InsertAtEnd(t[1..], x, key);
      assert t == [t[0]] + t[1..];
    }
  }

  /** Dropping the last entry of a descending list leaves it descending, and that entry is smallest. */
  lemma DescendingFront(s: seq<TimesheetEntry>, front: seq<TimesheetEntry>, key: Key)
    requires Descending(s, key) && s != [] && front == s[..|s| - 1]
    ensures Descending(front, key)
    ensures forall i :: 0 <= i < |front| ==> key(front[i]) >= key(s[|s| - 1])
  {
  }

  /** Sorting a list whose front is sorted and whose last entry is smallest changes nothing. */
  lemma SortAppendSmallest(s: seq<TimesheetEntry>, front: seq<TimesheetEntry>, x: TimesheetEntry, key: Key)
    requires s == front + [x] && SortByKey(front, key) == front
    requires forall i :: 0 <= i < |front| ==> key(front[i]) >= key(x)
    ensures SortByKey(s, key) == s
  {
    InsertAtEnd(front, x, key);
    assert s[..|s| - 1] == front;
  }

  /** A list already in descending order comes out of the sort unchanged. */
  lemma {:induction false} SortKeepsSorted(s: seq<TimesheetEntry>, key: Key)
    requires Descending(s, key)
    ensures SortByKey(s, key) == s
  {
    if s != [] {
      var front := s[..|s| - 1];
      assert s == front + [s[|s| - 1]];
      DescendingFront(s, front, key);
      SortKeepsSorted(front, key);
      SortAppendSmallest(s, front, s[|s| - 1], key);
    }
  }

  /**
   * `.sort((a, b) => new Date(b.date) - new Date(a.date))`: a stable sort,
   * newest date first, entries of the same date keeping their relative order.
   */
  function SortByDateDesc(s: seq<TimesheetEntry>): (r: seq<TimesheetEntry>)
    ensures |r| == |s| && multiset(r) == multiset(s)
    ensures NewestFirst(r)
  {
    SortIsDescending(s, DateKey);
    SortByKey(s, DateKey)
  }

  /** Entries dated on the same day keep their relative order through the sort. */
  lemma SortByDateIsStable(s: seq<TimesheetEntry>, day: int)
    ensures WithKey(SortByDateDesc(s), DateKey, day) == WithKey(s, DateKey, day)
  {
    SortIsStable(s, DateKey, day);
  }

  /**
   * Adding to a list that is already newest first: the new entry goes right
   * after every entry dated on or after it, before every older one.
   */
  lemma AddToSortedInserts(t: seq<TimesheetEntry>, x: TimesheetEntry)
    requires NewestFirst(t)
    ensures SortByDateDesc(t + [x]) == Insert(t, x, DateKey)
  {
    assert (t + [x])[..|t|] == t;
    SortKeepsSorted(t, DateKey);
  }

  // ----- Deleting by id

  /** `entries.filter(e => e.id !== id)`. */
  function RemoveId(s: seq<TimesheetEntry>, id: int): (r: seq<TimesheetEntry>)
    ensures forall e :: e in r <==> e in s && e.id != id
    ensures |r| <= |s|
  {
    if s == [] then []
    else
      assert forall e :: e in s <==> e == s[0] || e in s[1..];
      (if s[0].id == id then [] else [s[0]]) + RemoveId(s[1..], id)
  }

  /** The filter works piece by piece, so the survivors keep their relative order. */
  lemma {:induction false} RemoveIdOfConcat(a: seq<TimesheetEntry>, b: seq<TimesheetEntry>, id: int)
    ensures RemoveId(a + b, id) == RemoveId(a, id) + RemoveId(b, id)
  {
    if a != [] {
      assert (a + b)[1..] == a[1..] + b;
      RemoveIdOfConcat(a[1..], b, id);
    } else {
      assert a + b == b;
    }
  }

  /** Deleting an id no entry has changes nothing. */
  lemma {:induction false} RemoveAbsentId(s: seq<TimesheetEntry>, id: int)
    requires forall e :: e in s ==> e.id != id
    ensures RemoveId(s, id) == s
  {
    if s != [] {
      assert s[0] in s;
      RemoveAbsentId(s[1..], id);
      assert s == [s[0]] + s[1..];
    }
  }

  /** A list in descending order stays so after a delete. */
  lemma {:induction false} RemoveIdDescending(s: seq<TimesheetEntry>, id: int, key: Key)
    requires Descending(s, key)
    ensures Descending(RemoveId(s, id), key)
  {
    if s != [] {
      var rest := RemoveId(s[1..], id);
      DescendingTail(s, key);
      RemoveIdDescending(s[1..], id, key);
      forall e | e in rest ensures key(s[0]) >= key(e) {
        var i :| 0 <= i < |s[1..]| && s[1..][i] == e;
      }
      if s[0].id != id {
        DescendingCons(s[0], rest, key);
      }
    }
  }

  /** A newest-first list stays newest first after a delete. */
  lemma RemoveIdNewestFirst(s: seq<TimesheetEntry>, id: int)
    requires NewestFirst(s)
    ensures NewestFirst(RemoveId(s, id))
  {
    RemoveIdDescending(s, id, DateKey);
  }

  // ----- The weekday name stored with an entry

  const ShortDayNames: seq<string> := ["Sun", "Mon", "Tue", "Wed", "Thu", "Fri", "Sat"]

  /**
   * `new Date(date).toLocaleDateString('en-US', { weekday: 'short' })` as
   * written: the date parses to midnight UTC and is then named in the
   * device's time zone, offsetMs ahead of UTC.
   */
  function DayNameAsWritten(date: string, offsetMs: int): (name: string)
    ensures ParseDate(date).Some? ==> name in ShortDayNames
    ensures ParseDate(date).None? ==> name == "Invalid Date"
  {
    match ParseDate(date)
    case Some(d) => ShortDayNames[Weekday(LocalDay(d * MsPerDay, offsetMs))]
    case None => "Invalid Date"
  }

  /** The weekday name of the entry's own calendar date, in any time zone. */
  function DayName(date: string): (r: string)
    ensures ParseDate(date).Some? ==> r == ShortDayNames[Weekday(ParseDate(date).value)]
    ensures ParseDate(date).None? ==> r == "Invalid Date"
  {
    DayNameAsWritten(date, 0)
  }

  lemma LocalDayOfMidnight(d: int, offsetMs: int)
    requires -MsPerDay <= offsetMs < MsPerDay
    ensures LocalDay(d * MsPerDay, offsetMs) == if offsetMs < 0 then d - 1 else d
  {
    if offsetMs < 0 {
      assert d * MsPerDay + offsetMs == (d - 1) * MsPerDay + (MsPerDay + offsetMs);
    } else {
      assert d * MsPerDay + offsetMs == d * MsPerDay + offsetMs;
    }
  }

  /**
   * As written, a device west of Greenwich (a negative offset of under a day)
   * names the day before the entry's date; east of it, or on UTC, the name is right.
   */
  lemma DayNameShiftsWest(date: string, offsetMs: int)
    requires -MsPerDay <= offsetMs < MsPerDay
    requires ParseDate(date).Some?
    ensures offsetMs < 0 ==> DayNameAsWritten(date, offsetMs) == ShortDayNames[Weekday(ParseDate(date).value - 1)]
    ensures offsetMs < 0 ==> DayNameAsWritten(date, offsetMs) != DayName(date)
    ensures offsetMs >= 0 ==> DayNameAsWritten(date, offsetMs) == DayName(date)
  {
    var d := ParseDate(date).value;
    LocalDayOfMidnight(d, offsetMs);
    DayNameOfParsed(date, d, offsetMs);
    DayNameOfParsed(date, d, 0);
    LocalDayOfMidnight(d, 0);
    WeekdayBefore(d);
  }

  lemma DayNameOfParsed(date: string, d: int, offsetMs: int)
    requires ParseDate(date) == Some(d)
    ensures DayNameAsWritten(date, offsetMs) == ShortDayNames[Weekday(LocalDay(d * MsPerDay, offsetMs))]
  {
  }

  /** Consecutive days have different weekdays, and so different short names. */
  lemma WeekdayBefore(d: int)
    ensures Weekday(d - 1) != Weekday(d)
    ensures ShortDayNames[Weekday(d - 1)] != ShortDayNames[Weekday(d)]
  {
  }

  /** 2024-01-10 was a Wednesday, but a device on UTC-5 names it "Tue". */
  lemma DayNameExample()
    ensures ParseDate("2024-01-10") == Some(19732)
    ensures DayName("2024-01-10") == "Wed"
    ensures DayNameAsWritten("2024-01-10", -5 * 3_600_000) == "Tue"
  {
    ParseDateExamples();
    DayNameShiftsWest("2024-01-10", -5 * 3_600_000);
    assert Weekday(19732) == 3 && Weekday(19732 - 1) == 2;
    assert ShortDayNames[3] == "Wed" && ShortDayNames[2] == "Tue";
  }

  /** Putting an entry whose id differs in front of two lists keeps a filter result. */
  lemma RemoveIdConsStep(h: TimesheetEntry, rest: seq<TimesheetEntry>, tail: seq<TimesheetEntry>, id: int)
    requires h.id != id && RemoveId(rest, id) == tail
    ensures RemoveId([h] + rest, id) == [h] + tail
  {
    assert ([h] + rest)[1..] == rest;
  }

  lemma RemoveFront(x: TimesheetEntry, t: seq<TimesheetEntry>)
    ensures RemoveId([x] + t, x.id) == RemoveId(t, x.id)
  {
    assert ([x] + t)[1..] == t;
  }

  /** Deleting the id of an inserted entry that no listed entry shares leaves the list as it was. */
  lemma {:induction false} RemoveInserted(t: seq<TimesheetEntry>, x: TimesheetEntry, key: Key)
    requires forall e :: e in t ==> e.id != x.id
    ensures RemoveId(Insert(t, x, key), x.id) == t
  {
    if t == [] {
      assert [x][1..] == [];
    } else if key(t[0]) < key(x) {
      RemoveAbsentId(t, x.id);
      RemoveFront(x, t);
    } else {
      assert t[0] in t;
      RemoveInserted(t[1..], x, key);
      RemoveIdConsStep(t[0], Insert(t[1..], x, key), t[1..], x.id);
      assert Insert(t, x, key) == [t[0]] + Insert(t[1..], x, key);
      assert t == [t[0]] + t[1..];
    }
  }

  // ----- Row style bands of the exported sheet

  /**
   * The style a row of the sheet gets: the three title rows (the first in a
   * larger font), the four profile rows, the column labels, the data rows
   * with alternating fill, the totals row and everything else with an empty style.
   */
  datatype Band = Title(size: nat) | Profile | ColumnHeader | Data(shaded: bool) | Totals | Plain

  /** The band of row r when the sheet has n data rows, by the order the style loop tests them. */
  function BandOf(r: int, n: nat): (b: Band)
    ensures b.Title? <==> r <= 2
    ensures b.Profile? <==> 4 <= r <= 7
    ensures b.ColumnHeader? <==> r == 9
    ensures b.Data? <==> 10 <= r < 10 + n
    ensures b.Totals? <==> r == 10 + n + 1
    ensures b.Plain? <==> r == 3 || r == 8 || r == 10 + n || r > 10 + n + 1
  {
    if r <= 2 then Title(if r == 0 then 16 else 14)
    else if 4 <= r <= 7 then Profile
    else if r == 9 then ColumnHeader
    else if 9 < r < 10 + n then Data((r - 10) % 2 != 0)
    else if r == 10 + n + 1 then Totals
    else Plain
  }

  /** A cell of the sheet: its text and, once the style loop has reached it, its band. */
  datatype Cell = Cell(v: string, style: Option<Band>)

  /** `ws['!merges']`: each title row spans the seven columns. */
  datatype Span = Span(row: nat, firstColumn: nat, lastColumn: nat)

  const TitleMerges: seq<Span> := [Span(0, 0, 6), Span(1, 0, 6), Span(2, 0, 6)]

  /** The merged rows are exactly the rows in the title band. */
  lemma MergesAreTitleRows(r: nat, n: nat)
    ensures (exists m :: m in TitleMerges && m.row == r) <==> BandOf(r, n).Title?
    ensures forall m :: m in TitleMerges ==> m.firstColumn == 0 && m.lastColumn == |ColumnLabels| - 1
  {
    if r <= 2 {
      assert TitleMerges[r] in TitleMerges;
    }
  }

  /** The text `aoa_to_sheet` puts in cell (r, c), if any. */
  function CellText(rows: seq<Row>, r: nat, c: nat): string
    requires r < |rows|
  {
    if c < |rows[r]| then rows[r][c] else ""
  }

  /** Row r, column c lies in the rows of the sheet and its seven columns. */
  predicate InGrid(p: (int, int), rowCount: nat) {
    0 <= p.0 < rowCount && 0 <= p.1 < |ColumnLabels|
  }

  /**
   * The style loop over every row and the seven columns: a missing cell is
   * created empty and every cell's style is replaced by its row's band.
   * Cells outside the seven columns are left as they were.
   */
  method StyleCells(sheet: map<(int, int), Cell>, rows: seq<Row>, n: nat) returns (cells: map<(int, int), Cell>)
    requires forall p :: InGrid(p, |rows|) && p.1 < |rows[p.0]| ==> p in sheet
    requires forall p :: p in sheet && InGrid(p, |rows|) ==> sheet[p].v == CellText(rows, p.0, p.1)
    ensures forall p :: InGrid(p, |rows|) ==> p in cells && cells[p] == Cell(CellText(rows, p.0, p.1), Some(BandOf(p.0, n)))
    ensures forall p :: !InGrid(p, |rows|) ==> (p in cells <==> p in sheet) && (p in sheet ==> cells[p] == sheet[p])
  {
    cells := sheet;
    var r := 0;
    while r < |rows|
      invariant 0 <= r <= |rows|
      invariant forall p :: InGrid(p, r) ==> p in cells && cells[p] == Cell(CellText(rows, p.0, p.1), Some(BandOf(p.0, n)))
      invariant forall p :: !InGrid(p, r) ==> (p in cells <==> p in sheet) && (p in sheet ==> cells[p] == sheet[p])
    {
      var c := 0;
      while c < |ColumnLabels|
        invariant 0 <= c <= |ColumnLabels|
        invariant forall p :: InGrid(p, r) || (p.0 == r && 0 <= p.1 < c) ==>
          p in cells && cells[p] == Cell(CellText(rows, p.0, p.1), Some(BandOf(p.0, n)))
        invariant forall p :: !(InGrid(p, r) || (p.0 == r && 0 <= p.1 < c)) ==>
          (p in cells <==> p in sheet) && (p in sheet ==> cells[p] == sheet[p])
      {
        var text := if (r, c) in cells then cells[(r, c)].v else "";
        cells := cells[(r, c) := Cell(text, Some(BandOf(r, n)))];
        c := c + 1;
      }
      r := r + 1;
    }
  }

  /** A non-empty string that does not start with 'T' is not the totals label. */
  lemma NotTotalLabel(s: string)
    requires s != [] && s[0] != 'T'
    ensures s != TotalLabel
  {
  }

  /** No header row holds the totals label. */
  lemma HeaderHasNoTotal(name: string, number: string, startDate: string, endDate: string, generated: string, r: nat)
    requires r < 10
    ensures TotalLabel !in HeaderRows(name, number, startDate, endDate, generated)[r]
  {
    var rows := HeaderRows(name, number, startDate, endDate, generated);
    if r == 4 || r == 5 || r == 6 || r == 7 {
      NotTotalLabel(rows[r][0]);
    }
  }

  /** The text of a total is a number or "NaN", never the totals label. */
  lemma TotalTextIsNotLabel(total: Option<int>)
    ensures TotalText(total) != TotalLabel
  {
    if total.Some? {
      var v := total.value;
      var u := UnsignedFixed2(if v < 0 then -v else v);
      assert u[..|u| - 3][0] == u[0];
      assert IsDigitOf(u[0], 10);
      NotTotalLabel(Fixed2Text(v));
    }
  }

  /** Of the trailer rows only the second holds the totals label. */
  lemma TrailerTotalRow(total: Option<int>, r: nat)
    requires r < 8
    ensures TotalLabel in TrailerRows(total)[r] <==> r == 1
  {
    var rows := TrailerRows(total);
    if r == 1 {
      TrailerTotalLine(total);
      assert TotalsLine(total)[5] == TotalLabel;
    } else if r >= 2 {
      assert rows[r] == SignatureRows[r - 2];
      NoLabelInSignatureRows(r - 2);
    }
  }

  /** The signature rows do not hold the totals label. */
  lemma NoLabelInSignatureRows(i: nat)
    requires i < |SignatureRows|
    ensures TotalLabel !in SignatureRows[i]
  {
    var row := SignatureRows[i];
    var date := "Date: _________________________";
    NotTotalLabel(date);
    if i == 1 {
      var student := "Student Signature: _________________________";
      assert row == [student, "", "", date];
      NotTotalLabel(student);
    } else if i == 3 {
      var supervisor := "Supervisor Signature: _________________________";
      assert row == [supervisor, "", "", date];
      assert |supervisor| != |TotalLabel|;
    } else if i == 5 {
      var notes := "Notes/Comments:";
      assert row == [notes];
      NotTotalLabel(notes);
    }
  }

  /**
   * On a newest-first list, as the app keeps it, the pay period runs from the
   * oldest entry's date to the newest one's.
   */
  lemma PayPeriodSpansEntries(es: seq<TimesheetEntry>)
    requires es != [] && NewestFirst(es)
    ensures StartDate(es) == es[|es| - 1].date && EndDate(es) == es[0].date
    ensures forall i :: 0 <= i < |es| ==> DateKey(es[|es| - 1]) <= DateKey(es[i]) <= DateKey(es[0])
  {
  }

  /**
   * The row styled as the totals band is exactly the row holding the totals
   * label, as long as no entry field is that label itself.
   */
  lemma TotalsBandIsTotalsRow(rows: seq<Row>, es: seq<TimesheetEntry>, name: string, number: string,
                              generated: string, r: nat)
    requires rows == SheetRows(es, name, number, generated)
    requires forall e :: e in es ==> TotalLabel !in EntryRow(e)
    requires r < |rows|
    ensures BandOf(r, |es|) == Totals <==> TotalLabel in rows[r]
  {
    var n := |es|;
    if r < 10 {
      HeaderRowHasNoTotal(rows, es, name, number, generated, r);
    } else if r < 10 + n {
      DataRowOfSheet(rows, es, name, number, generated, r);
      assert es[n - 1 - (r - 10)] in es;
    } else {
      TrailerRowOfSheet(rows, es, name, number, generated, r);
      TrailerTotalRow(TotalHours(es), r - 10 - n);
    }
  }

  /** The header rows of a sheet do not hold the totals label. */
  lemma HeaderRowHasNoTotal(rows: seq<Row>, es: seq<TimesheetEntry>, name: string, number: string,
                            generated: string, r: nat)
    requires rows == SheetRows(es, name, number, generated)
    requires r < 10
    ensures TotalLabel !in rows[r]
  {
    var header := HeaderRows(name, number, StartDate(es), EndDate(es), generated);
    IndexOfThree(header, DataRows(es), TrailerRows(TotalHours(es)), r);
    HeaderHasNoTotal(name, number, StartDate(es), EndDate(es), generated, r);
  }

  /** Row 10 + k of a sheet is the row of the k-th entry from the end. */
  lemma DataRowOfSheet(rows: seq<Row>, es: seq<TimesheetEntry>, name: string, number: string,
                       generated: string, r: nat)
    requires rows == SheetRows(es, name, number, generated)
    requires 10 <= r < 10 + |es|
    ensures rows[r] == EntryRow(es[|es| - 1 - (r - 10)])
  {
    var header := HeaderRows(name, number, StartDate(es), EndDate(es), generated);
    IndexOfThree(header, DataRows(es), TrailerRows(TotalHours(es)), r);
  }

  /** The rows after the data rows are the trailer rows for the total of all hours. */
  lemma TrailerRowOfSheet(rows: seq<Row>, es: seq<TimesheetEntry>, name: string, number: string,
                          generated: string, r: nat)
    requires rows == SheetRows(es, name, number, generated)
    requires 10 + |es| <= r < |rows|
    ensures rows[r] == TrailerRows(TotalHours(es))[r - 10 - |es|]
  {
    var header := HeaderRows(name, number, StartDate(es), EndDate(es), generated);
    IndexOfThree(header, DataRows(es), TrailerRows(TotalHours(es)), r);
  }

  /**
   * The data band covers exactly the entry rows; the first is unshaded and
   * each next one switches the fill.
   */
  lemma DataBandsAlternate(r: int, n: nat)
    ensures BandOf(r, n).Data? <==> 10 <= r < 10 + n
    ensures n > 0 ==> BandOf(10, n) == Data(false)
    ensures 10 <= r && r + 1 < 10 + n ==> BandOf(r + 1, n).shaded == !BandOf(r, n).shaded
  {
  }

  // ----- The app's state and handlers

  /** The entry form: the fields the user fills before adding an entry. */
  datatype Form = Form(date: string, timeIn: string, timeOut: string, breakMinutes: string, task: string)

  /** The form as it starts and as it is reset after an entry is added. */
  function BlankForm(today: string): Form {
    Form(today, "", "", "0", "")
  }

  datatype View = HomeView | AddView | EntriesView | SettingsView

  /** `a || b` for text: the first unless it is missing or empty. */
  function OrElse(a: Option<string>, b: string): (r: string)
    ensures r == b || (a.Some? && r == a.value)
    ensures r == "" ==> b == ""
    ensures a.Some? && a.value != "" ==> r == a.value
  {
    if a.Some? && a.value != "" then a.value else b
  }

  /** Well-formed times in the form: empty or "HH:MM", as the time inputs write them. */
  predicate FormTimesReadable(f: Form) {
    (f.timeIn == "" || IsClockTime(f.timeIn)) && (f.timeOut == "" || IsClockTime(f.timeOut))
  }

  /**
   * The entry `addEntry` builds from the form: the form's fields, the weekday
   * name of its date, the hours to two decimals and the clock reading as id.
   */
  function NewEntry(f: Form, id: int): (e: TimesheetEntry)
    requires FormTimesReadable(f)
    ensures e.id == id && e.date == f.date && e.timeIn == f.timeIn && e.timeOut == f.timeOut
    ensures e.breakMinutes == f.breakMinutes && e.task == f.task && e.day == DayName(f.date)
    ensures e.hours == Fixed2Text(RoundHundredths(CalculateHours(f.timeIn, f.timeOut, f.breakMinutes)))
    ensures Fixed2Value(e.hours) == Some(RoundHundredths(CalculateHours(f.timeIn, f.timeOut, f.breakMinutes)))
  {
    var hours := RoundHundredths(CalculateHours(f.timeIn, f.timeOut, f.breakMinutes));
    Fixed2RoundTrip(hours);
    TimesheetEntry(id, f.date, f.timeIn, f.timeOut, f.breakMinutes, f.task, DayName(f.date), Fixed2Text(hours))
  }

  /** What `addEntry` did: refused for missing times or a missing name, or added an entry. */
  datatype AddOutcome = MissingTimes | MissingName | Added(entry: TimesheetEntry)

  /** The sheet `exportToExcel` hands to the writer: the workbook, its merges and its styled cells. */
  datatype StyledBook = StyledBook(book: Workbook, merges: seq<Span>, cells: map<(int, int), Cell>)

  /** An entry dated on the Sunday that begins the week of `now`, or later. */
  predicate InWeek(e: TimesheetEntry, now: int, offsetMs: int) {
    ParseDate(e.date).Some? && ParseDate(e.date).value >= WeekSunday(now, offsetMs)
  }

  /** The cells `aoa_to_sheet` makes: one per element of each row, unstyled. */
  ghost predicate IsSheetOf(sheet: map<(int, int), Cell>, rows: seq<Row>) {
    && (forall p :: InGrid(p, |rows|) && p.1 < |rows[p.0]| ==> p in sheet)
    && (forall p :: p in sheet && InGrid(p, |rows|) ==> sheet[p].v == CellText(rows, p.0, p.1))
  }

  /**
   * The component: the profile and entry list it shows, the entry form, the
   * current view, and `window.timesheetAppData`, the slot it saves to.
   */
  class App {
    var employeeName: string
    var studentNumber: string
    var entries: seq<TimesheetEntry>
    var form: Form
    var view: View
    var saved: Option<AppData>

    /** The initial state, with the mount-time `loadData` applied to what the slot holds. */
    constructor (today: string, slot: Option<AppData>)
      ensures form == BlankForm(today) && view == HomeView && saved == slot
      ensures slot.None? ==> employeeName == "" && studentNumber == "" && entries == []
      ensures slot.Some? ==> employeeName == slot.value.employeeName && studentNumber == slot.value.studentNumber
      ensures slot.Some? ==> entries == slot.value.entries
    {
      employeeName := "";
      studentNumber := "";
      entries := [];
      form := BlankForm(today);
      view := HomeView;
      saved := slot;
      new;
      LoadData();
    }

    /**
     * `saveData`: overwrites the slot; each profile field comes from the
     * argument when given and non-empty, else from the current state; an
     * entry list, even an empty one, always replaces the current one.
     */
    method SaveData(name: Option<string>, number: Option<string>, list: Option<seq<TimesheetEntry>>, now: string)
      modifies this
      ensures saved == Some(AppData(OrElse(name, employeeName), OrElse(number, studentNumber), Pick(list, entries), now))
      ensures employeeName == old(employeeName) && studentNumber == old(studentNumber)
      ensures entries == old(entries) && form == old(form) && view == old(view)
    {
      saved := Some(AppData(OrElse(name, employeeName), OrElse(number, studentNumber), Pick(list, entries), now));
    }

    /** `loadData`: takes the profile and entries from the slot if it holds anything. */
    method LoadData()
      modifies this
      ensures saved == old(saved) && form == old(form) && view == old(view)
      ensures saved.None? ==> employeeName == old(employeeName) && studentNumber == old(studentNumber) && entries == old(entries)
      ensures saved.Some? ==> employeeName == saved.value.employeeName && studentNumber == saved.value.studentNumber
      ensures saved.Some? ==> entries == saved.value.entries
    {
      if saved.Some? {
        employeeName := OrElse(Some(saved.value.employeeName), "");
        studentNumber := OrElse(Some(saved.value.studentNumber), "");
        entries := saved.value.entries;
      }
    }

    /**
     * `addEntry`: refuses a form without both times, then a missing name
     * (switching to the settings view); otherwise adds the new entry, sorts
     * the list newest first, saves it, resets the form and returns home.
     * `id` is the clock reading and `today` the form's new default date.
     */
    method AddEntry(id: int, today: string, now: string) returns (outcome: AddOutcome)
      requires FormTimesReadable(form)
      modifies this
      ensures employeeName == old(employeeName) && studentNumber == old(studentNumber)
      ensures old(form.timeIn) == "" || old(form.timeOut) == "" ==>
        outcome == MissingTimes && entries == old(entries) && form == old(form) && view == old(view) && saved == old(saved)
      ensures old(form.timeIn) != "" && old(form.timeOut) != "" && old(employeeName) == "" ==>
        outcome == MissingName && entries == old(entries) && form == old(form) && view == SettingsView && saved == old(saved)
      ensures outcome.Added? <==> old(form.timeIn) != "" && old(form.timeOut) != "" && old(employeeName) != ""
      ensures outcome.Added? ==>
        && outcome.entry == NewEntry(old(form), id)
        && entries == SortByDateDesc(old(entries) + [outcome.entry])
        && saved == Some(AppData(employeeName, studentNumber, entries, now))
        && form == BlankForm(today) && view == HomeView
    {
      if form.timeIn == "" || form.timeOut == "" {
        return MissingTimes;
      }
      if employeeName == "" {
        view := SettingsView;
        return MissingName;
      }
      var entry := NewEntry(form, id);
      Commit(entry, today, now);
      outcome := Added(entry);
    }

    /** The accepted branch of `addEntry`: sort the entry in, save, reset the form, go home. */
    method Commit(entry: TimesheetEntry, today: string, now: string)
      modifies this
      ensures employeeName == old(employeeName) && studentNumber == old(studentNumber)
      ensures entries == SortByDateDesc(old(entries) + [entry])
      ensures saved == Some(AppData(employeeName, studentNumber, entries, now))
      ensures form == BlankForm(today) && view == HomeView
    {
      var updated := SortByDateDesc(entries + [entry]);
      entries := updated;
      SaveData(None, None, Some(updated), now);
      form := BlankForm(today);
      view := HomeView;
    }

    /** `deleteEntry`: once confirmed, drops every entry with the id and saves the rest. */
    method DeleteEntry(id: int, confirmed: bool, now: string)
      modifies this
      ensures employeeName == old(employeeName) && studentNumber == old(studentNumber)
      ensures form == old(form) && view == old(view)
      ensures !confirmed ==> entries == old(entries) && saved == old(saved)
      ensures confirmed ==> entries == RemoveId(old(entries), id)
      ensures confirmed ==> saved == Some(AppData(employeeName, studentNumber, entries, now))
    {
      if confirmed {
        var updated := RemoveId(entries, id);
        entries := updated;
        SaveData(None, None, Some(updated), now);
      }
    }

    /** `saveProfile`: refuses an empty name and saves nothing; otherwise saves the profile. */
    method SaveProfile(now: string) returns (ok: bool)
      modifies this
      ensures employeeName == old(employeeName) && studentNumber == old(studentNumber)
      ensures entries == old(entries) && form == old(form) && view == old(view)
      ensures ok <==> employeeName != ""
      ensures !ok ==> saved == old(saved)
      ensures ok ==> saved == Some(AppData(employeeName, studentNumber, entries, now))
    {
      if employeeName == "" {
        return false;
      }
      SaveData(Some(employeeName), Some(studentNumber), None, now);
      ok := true;
    }

    /** `clearAllData`: once confirmed, empties the list and saves, keeping the profile. */
    method ClearAllData(confirmed: bool, now: string)
      modifies this
      ensures employeeName == old(employeeName) && studentNumber == old(studentNumber)
      ensures form == old(form) && view == old(view)
      ensures !confirmed ==> entries == old(entries) && saved == old(saved)
      ensures confirmed ==> entries == [] && saved == Some(AppData(employeeName, studentNumber, [], now))
    {
      if confirmed {
        entries := [];
        SaveData(None, None, Some([]), now);
      }
    }

    /**
     * `getWeekSummary` with the week starting at the local Sunday's date:
     * the hours of exactly the entries dated that Sunday or later, never more
     * than the total when every hours field is readable and non-negative.
     */
    function WeekHours(now: int, offsetMs: int): (r: Option<int>)
      reads this
      ensures r == WeekSummary(entries, WeekStart(now, offsetMs))
      ensures r.Some? <==> forall e :: e in entries && InWeek(e, now, offsetMs) ==> HoursValue(e).Some?
      ensures HoursWritten(entries) ==> r.Some? && TotalHours(entries).Some? && 0 <= r.value <= TotalHours(entries).value
    {
      var start := WeekStart(now, offsetMs);
      assert forall e :: OnOrAfter(e, start) <==> InWeek(e, now, offsetMs) by {
        forall e ensures OnOrAfter(e, start) <==> InWeek(e, now, offsetMs) {
          WeekStartCountsFromSunday(now, offsetMs, e);
        }
      }
      var sum := WeekSummary(entries, start);
      assert HoursWritten(entries) ==>
        (sum.Some? && TotalHours(entries).Some? && 0 <= sum.value <= TotalHours(entries).value) by {
        if HoursWritten(entries) {
          WeekAtMostTotal(entries, start);
        }
      }
      sum
    }

    /**
     * `exportToExcel`: refuses an empty list; otherwise the workbook of the
     * exporter, the merged title rows, and every cell of the seven columns
     * styled by its row's band. `sheet` is what `aoa_to_sheet` made of the rows.
     */
    method ExportToExcel(generated: string, isoDate: string, sheet: map<(int, int), Cell>)
      returns (r: Result<StyledBook>)
      requires IsSheetOf(sheet, SheetRows(entries, employeeName, studentNumber, generated))
      ensures r.Err? <==> entries == []
      ensures r.Err? ==> r.message == NoEntriesMessage
      ensures r.Ok? ==> r.value.book.rows == SheetRows(entries, employeeName, studentNumber, generated)
      ensures r.Ok? ==> r.value.book.fileName == FileName(employeeName, isoDate)
      ensures r.Ok? ==> r.value.book.sheetName == SheetName && r.value.book.columnWidths == ColumnWidths
      ensures r.Ok? ==> r.value.merges == TitleMerges
      ensures r.Ok? ==> forall p :: InGrid(p, |r.value.book.rows|) ==>
        p in r.value.cells && r.value.cells[p].style == Some(BandOf(p.0, |entries|))
      ensures r.Ok? ==> forall p :: InGrid(p, |r.value.book.rows|) ==>
        p in r.value.cells && r.value.cells[p].v == CellText(r.value.book.rows, p.0, p.1)
      ensures r.Ok? ==> forall p :: !InGrid(p, |r.value.book.rows|) ==>
        (p in r.value.cells <==> p in sheet) && (p in sheet ==> r.value.cells[p] == sheet[p])
    {
      var book := ExcelService.ExportToExcel(entries, employeeName, studentNumber, generated, isoDate);
      if book.Err? {
        return Err(book.message);
      }
      var cells := StyleCells(sheet, book.value.rows, |entries|);
      r := Ok(StyledBook(book.value, TitleMerges, cells));
    }
  }

  /**
   * Adding an entry through the app: the list grows by exactly the new entry,
   * comes out newest first, and a list that was already newest first only
   * gains the entry after every entry dated on or after it.
   */
  method AddToList(list: seq<TimesheetEntry>, name: string, f: Form, id: int, today: string, now: string)
    returns (updated: seq<TimesheetEntry>)
    requires name != "" && f.timeIn != "" && f.timeOut != "" && FormTimesReadable(f)
    ensures |updated| == |list| + 1
    ensures multiset(updated) == multiset(list) + multiset{NewEntry(f, id)}
    ensures NewestFirst(updated)
    ensures NewestFirst(list) ==> updated == Insert(list, NewEntry(f, id), DateKey)
  {
    var app := new App(today, Some(AppData(name, "", list, "")));
    app.form := f;
    var outcome := app.AddEntry(id, today, now);
    updated := app.entries;
    if NewestFirst(list) {
      AddToSortedInserts(list, NewEntry(f, id));
    }
  }

  /** Deleting the entry just added, by its fresh id, gives back a newest-first list unchanged. */
  method AddThenDelete(list: seq<TimesheetEntry>, name: string, f: Form, id: int, today: string, t1: string, t2: string)
    returns (after: seq<TimesheetEntry>)
    requires name != "" && f.timeIn != "" && f.timeOut != "" && FormTimesReadable(f)
    requires NewestFirst(list) && forall e :: e in list ==> e.id != id
    ensures after == list
  {
    var app := new App(today, Some(AppData(name, "", list, "")));
    app.form := f;
    var outcome := app.AddEntry(id, today, t1);
    AddToSortedInserts(list, NewEntry(f, id));
    app.DeleteEntry(id, true, t2);
    RemoveInserted(list, NewEntry(f, id), DateKey);
    after := app.entries;
  }

  /**
   * Clearing keeps the profile: an app started afresh from the slot after a
   * confirmed clear shows the same name and number and no entries.
   */
  method ClearThenReload(name: string, number: string, list: seq<TimesheetEntry>, today: string, now: string)
    returns (reloadedName: string, reloadedNumber: string, reloadedEntries: seq<TimesheetEntry>)
    ensures reloadedName == name && reloadedNumber == number && reloadedEntries == []
  {
    var app := new App(today, Some(AppData(name, number, list, "")));
    app.ClearAllData(true, now);
    var reloaded := new App(today, app.saved);
    reloadedName, reloadedNumber, reloadedEntries := reloaded.employeeName, reloaded.studentNumber, reloaded.entries;
  }

  /**
   * Saving only an entry list and then the profile leaves the slot holding
   * both: the profile save writes the list the app shows.
   */
  method SaveEntriesThenProfile(name: string, number: string, list: seq<TimesheetEntry>, today: string,
                                t1: string, t2: string)
    returns (stored: AppData)
    requires name != ""
    ensures stored == AppData(name, number, list, t2)
  {
    var app := new App(today, None);
    app.employeeName, app.studentNumber := name, number;
    app.SaveData(None, None, Some(list), t1);
    app.entries := list;
    var ok := app.SaveProfile(t2);
    stored := app.saved.value;
  }

  /** A profile save without a name is refused and leaves the slot empty. */
  method ProfileNeedsName(number: string, today: string, now: string) returns (ok: bool, slot: Option<AppData>)
    ensures !ok && slot.None?
  {
    var app := new App(today, None);
    app.studentNumber := number;
    ok := app.SaveProfile(now);
    slot := app.saved;
  }
}
