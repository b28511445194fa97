/**
  The extraction half of schedule/group/group.go over an abstract page: the
  choice of the schedule table, the row scan that files lessons under their
  day labels, the group-link filter and the publication-date matcher. The
  page comes already split into tables, rows, cells and links; selector
  matching and HTML parsing are not part of this model.
*/
module GroupParse {
  import opened Text
  import opened Wrappers
  import opened Model
  import opened GroupFormat

  /** The header word of the schedule table ("Disciplines"). */
  const Marker := "Дисциплины"
  /** The phrase before the publication date ("Schedule generated:"). */
  const UpdateMarker := "Расписание сформировано:"

  /** A `td`: its text and the texts of its `div.cell > div` elements. */
  datatype Cell = Cell(text: string, divs: seq<string>)

  /** A `tr`: its whole text and its `td` cells. */
  datatype Row = Row(text: string, cells: seq<Cell>)

  /** A `table`: whether it has class `rasp_table`, its text, its rows. */
  datatype Table = Table(isRasp: bool, text: string, rows: seq<Row>)

  /** A `table a` element: whether it has an `href`, the `href`, its text. */
  datatype Link = Link(hasHref: bool, href: string, text: string)

  /** A fetched page: its tables and table links in document order, its text. */
  datatype Page = Page(tables: seq<Table>, links: seq<Link>, text: string)

  // ---------------------------------------------------------------------
  // Choosing the table

  /** The rows of all `table.rasp_table` tables, in document order. */
  function RaspRows(tables: seq<Table>): seq<Row> {
    if tables == [] then []
    else RaspRows(tables[..|tables| - 1]) + (if tables[|tables| - 1].isRasp then tables[|tables| - 1].rows else [])
  }

  predicate HasRasp(tables: seq<Table>) {
    exists k :: 0 <= k < |tables| && tables[k].isRasp
  }

  predicate Marked(t: Table) {
    Contains(t.text, Marker)
  }

  /** Index of the last table whose text contains the header word, or -1. */
  function LastMarked(tables: seq<Table>): (k: int)
    ensures -1 <= k < |tables|
    ensures k >= 0 ==> Marked(tables[k])
    ensures forall j :: k < j < |tables| ==> !Marked(tables[j])
  {
    if tables == [] then -1
    else if Marked(tables[|tables| - 1]) then |tables| - 1
    else LastMarked(tables[..|tables| - 1])
  }

  /** The rows the scan walks: those of the `rasp_table` tables when there is
      one, otherwise those of the last table mentioning the header word,
      otherwise none. */
  function SelectedRows(tables: seq<Table>): (rows: seq<Row>)
    ensures HasRasp(tables) ==> rows == RaspRows(tables)
    ensures !HasRasp(tables) && (forall k :: 0 <= k < |tables| ==> !Marked(tables[k])) ==> rows == []
    ensures !HasRasp(tables) && (exists k :: 0 <= k < |tables| && Marked(tables[k])) ==>
              exists k :: 0 <= k < |tables| && Marked(tables[k]) && rows == tables[k].rows
                          && forall j :: k < j < |tables| ==> !Marked(tables[j])
  {
    if HasRasp(tables) then RaspRows(tables)
    else
      var k := LastMarked(tables);
      if k >= 0 then tables[k].rows else []
  }

  /** The table lookup of `GetSchedule`: the selector first, then the scan
      over all tables that keeps the last one mentioning the header word. */
  method ScheduleRows(tables: seq<Table>) returns (rows: seq<Row>)
    ensures rows == SelectedRows(tables)
  {
    if HasRasp(tables) {
      return RaspRows(tables);
    }
    var chosen := -1;
    for i := 0 to |tables|
      invariant -1 <= chosen < i || (chosen == -1 && i == 0)
      invariant chosen >= 0 ==> Marked(tables[chosen])
      invariant forall j :: chosen < j < i ==> !Marked(tables[j])
    {
      if Contains(tables[i].text, Marker) {
        chosen := i;
      }
    }
    rows := if chosen >= 0 then tables[chosen].rows else [];
    ghost var k := LastMarked(tables);
    assert k == chosen;
  }

  // ---------------------------------------------------------------------
  // The row scan

  /** The two states of the scan: no day label yet, or within a day whose
      non-empty label is carried along. */
  datatype DayState = AwaitingDay | WithinDay(day: string)

  /** `currentDay` read as a state: the empty label means no day. */
  function Track(day: string): (st: DayState)
    ensures st.WithinDay? ==> st.day == day && day != ""
    ensures st.AwaitingDay? <==> day == ""
  {
    if day == "" then AwaitingDay else WithinDay(day)
  }

  /** The state after some rows, and the lessons emitted so far. */
  datatype Scan = Scan(state: DayState, entries: seq<Entry>)

  predicate IsHeader(i: nat, row: Row) {
    i == 0 || Contains(row.text, Marker)
  }

  /** The time text of a row: cell 1 of a 3-cell row, cell 0 of a 2-cell
      row, and empty for any other shape. */
  function RowTime(row: Row): (t: string)
    ensures t != "" ==> |row.cells| == 2 || |row.cells| == 3
  {
    if |row.cells| == 3 then FormatTime(CleanText(row.cells[1].text))
    else if |row.cells| == 2 then FormatTime(CleanText(row.cells[0].text))
    else ""
  }

  /** The lesson of a row with info cell `info`: subject, teacher and room come
      from the first three info divisions when there are at least three,
      and stay empty otherwise. */
  function RowLesson(info: Cell, time: string, num: nat): Lesson {
    if |info.divs| >= 3 then
      Lesson(Itoa(num), time, CleanText(info.divs[0]), FormatName(CleanText(info.divs[1])), CleanText(info.divs[2]), "")
    else
      Lesson(Itoa(num), time, "", "", "", "")
  }

  /** One row of the scan. Header rows change nothing; a 3-cell row sets the
      day (possibly back to none); a row emits a lesson numbered after the
      day's earlier lessons when a day is set and its time is not empty. */
  function Step(sc: Scan, i: nat, row: Row): Scan {
    if IsHeader(i, row) then sc
    else
      var n := |row.cells|;
      var state := if n == 3 then Track(CleanText(row.cells[0].text)) else sc.state;
      var time := RowTime(row);
      match state
      case AwaitingDay => Scan(state, sc.entries)
      case WithinDay(d) =>
        if time == "" then Scan(state, sc.entries)
        else Scan(state, sc.entries + [Entry(d, RowLesson(row.cells[n - 1], time, |LessonsOn(sc.entries, d)| + 1))])
  }

  /** The scan after the first `n` rows. */
  function ScanRows(rows: seq<Row>, n: nat): Scan
    requires n <= |rows|
  {
    if n == 0 then Scan(AwaitingDay, []) else Step(ScanRows(rows, n - 1), n - 1, rows[n - 1])
  }

  /** The records of a schedule page whose scanned rows are `rows`. */
  function Extract(rows: seq<Row>, requestUrl: string): seq<Schedule> {
    Merge(ScanRows(rows, |rows|).entries, requestUrl)
  }

  /** What the scan emits: lessons under non-empty day labels, with an empty
      group, numbered 1, 2, ... within each day. */
  ghost predicate WellNumbered(es: seq<Entry>) {
    && (forall i :: 0 <= i < |es| ==> es[i].day != "" && es[i].lesson.group == "" && Formatted(es[i].lesson.teacher))
    && (forall d, j :: 0 <= j < |LessonsOn(es, d)| ==> LessonsOn(es, d)[j].num == Itoa(j + 1))
  }

  /** Filing one more lesson numbered after its day's earlier ones keeps
      the numbering. */
  lemma WellNumberedSnoc(es: seq<Entry>, e: Entry)
    requires WellNumbered(es)
    requires e.day != "" && e.lesson.group == "" && Formatted(e.lesson.teacher)
    requires e.lesson.num == Itoa(|LessonsOn(es, e.day)| + 1)
    ensures WellNumbered(es + [e])
  {
    var es' := es + [e];
    forall i | 0 <= i < |es'|
      ensures es'[i].day != "" && es'[i].lesson.group == "" && Formatted(es'[i].lesson.teacher)
    {
      if i < |es| {
        assert es'[i] == es[i];
      }
    }
    forall d, j | 0 <= j < |LessonsOn(es', d)|
      ensures LessonsOn(es', d)[j].num == Itoa(j + 1)
    {
      LessonsOnSnoc(es, e, d);
      if j < |LessonsOn(es, d)| {
        assert LessonsOn(es', d)[j] == LessonsOn(es, d)[j];
      }
    }
  }

  /** The teacher text of a lesson is `formatName` output or empty. */
  lemma RowLessonTeacher(info: Cell, time: string, num: nat)
    ensures Formatted(RowLesson(info, time, num).teacher)
  {
    if |info.divs| >= 3 {
      FormatNameFormatted(CleanText(info.divs[1]));
    } else {
      assert RowLesson(info, time, num).teacher == "";
    }
  }

  /** One row either leaves the lessons alone or files one lesson under
      the (non-empty) day label, numbered after that day's earlier lessons. */
  lemma StepFacts(sc: Scan, i: nat, row: Row)
    requires sc.state.WithinDay? ==> sc.state.day != ""
    ensures var next := Step(sc, i, row);
      && (next.state.WithinDay? ==> next.state.day != "")
      && (next.entries == sc.entries
          || exists e :: next.entries == sc.entries + [e] && e.day != "" && e.lesson.group == ""
                         && Formatted(e.lesson.teacher) && e.lesson.num == Itoa(|LessonsOn(sc.entries, e.day)| + 1))
  {
    var next := Step(sc, i, row);
    if next.entries != sc.entries {
      var n := |row.cells|;
      var d := next.state.day;
      var e := Entry(d, RowLesson(row.cells[n - 1], RowTime(row), |LessonsOn(sc.entries, d)| + 1));
      assert next.entries == sc.entries + [e];
      RowLessonTeacher(row.cells[n - 1], RowTime(row), |LessonsOn(sc.entries, d)| + 1);
    }
  }

  lemma {:induction false} ScanFacts(rows: seq<Row>, n: nat)
    requires n <= |rows|
    ensures ScanRows(rows, n).state.WithinDay? ==> ScanRows(rows, n).state.day != ""
    ensures WellNumbered(ScanRows(rows, n).entries)
  {
    if n > 0 {
      ScanFacts(rows, n - 1);
      var sc := ScanRows(rows, n - 1);
      StepFacts(sc, n - 1, rows[n - 1]);
      var next := ScanRows(rows, n);
      if next.entries != sc.entries {
        var e :| next.entries == sc.entries + [e] && e.day != "" && e.lesson.group == ""
                 && Formatted(e.lesson.teacher) && e.lesson.num == Itoa(|LessonsOn(sc.entries, e.day)| + 1);
        WellNumberedSnoc(sc.entries, e);
      }
    }
  }

  /** The group view promised by `GetSchedule`: one record per day label in
      first-seen order, no empty label, every record pointing at the page, the
      lessons of a day numbered "1".."n" in row order, no group set, and every
      teacher text with each period last or followed by a space. */
  lemma ExtractFacts(rows: seq<Row>, requestUrl: string)
    ensures var recs := Extract(rows, requestUrl);
      && Distinct(Dates(recs))
      && Dates(recs) == FirstSeen(Days(ScanRows(rows, |rows|).entries))
      && (forall k :: 0 <= k < |recs| ==> recs[k].date != "" && recs[k].href == requestUrl)
      && (forall k, j :: 0 <= k < |recs| && 0 <= j < |recs[k].lessons| ==>
            recs[k].lessons[j].num == Itoa(j + 1) && recs[k].lessons[j].group == ""
            && Formatted(recs[k].lessons[j].teacher))
  {
    var es := ScanRows(rows, |rows|).entries;
    ScanFacts(rows, |rows|);
    MergeFacts(es, requestUrl);
    DaysMembers(es);
    FirstSeenFacts(Days(es));
    var recs := Extract(rows, requestUrl);
    forall k | 0 <= k < |recs|
      ensures recs[k].date != ""
    {
      assert Dates(recs)[k] in Days(es);
    }
    forall k, j | 0 <= k < |recs| && 0 <= j < |recs[k].lessons|
      ensures recs[k].lessons[j].group == "" && Formatted(recs[k].lessons[j].teacher)
    {
      LessonsOnGroup(es, recs[k].date);
    }
  }

  lemma {:induction false} LessonsOnGroup(es: seq<Entry>, d: string)
    requires forall i :: 0 <= i < |es| ==> es[i].lesson.group == "" && Formatted(es[i].lesson.teacher)
    ensures forall j :: 0 <= j < |LessonsOn(es, d)| ==>
              LessonsOn(es, d)[j].group == "" && Formatted(LessonsOn(es, d)[j].teacher)
    decreases |es|
  {
    if es != [] {
      LessonsOnGroup(es[..|es| - 1], d);
    }
  }

  lemma ScanHeader(rows: seq<Row>, i: nat)
    requires i < |rows| && IsHeader(i, rows[i])
    ensures ScanRows(rows, i + 1) == ScanRows(rows, i)
  {
  }

  /** A non-header row whose day label (after the row) is `day`. */
  lemma ScanRow(rows: seq<Row>, i: nat, day: string)
    requires i < |rows| && !IsHeader(i, rows[i])
    requires Track(day) == if |rows[i].cells| == 3 then Track(CleanText(rows[i].cells[0].text)) else ScanRows(rows, i).state
    ensures ScanRows(rows, i + 1).state == Track(day)
    ensures var es := ScanRows(rows, i).entries;
            var row := rows[i];
            ScanRows(rows, i + 1).entries ==
              if day == "" || RowTime(row) == "" then es
              else es + [Entry(day, RowLesson(row.cells[|row.cells| - 1], RowTime(row), |LessonsOn(es, day)| + 1))]
  {
    var sc := ScanRows(rows, i);
    var row := rows[i];
    assert ScanRows(rows, i + 1) == Step(sc, i, row);
    StepRow(sc, i, row, day);
  }

  /** `Step` on a non-header row whose day label after the row is `day`. */
  lemma StepRow(sc: Scan, i: nat, row: Row, day: string)
    requires !IsHeader(i, row)
    requires Track(day) == if |row.cells| == 3 then Track(CleanText(row.cells[0].text)) else sc.state
    ensures Step(sc, i, row).state == Track(day)
    ensures Step(sc, i, row).entries ==
              if day == "" || RowTime(row) == "" then sc.entries
              else sc.entries + [Entry(day, RowLesson(row.cells[|row.cells| - 1], RowTime(row), |LessonsOn(sc.entries, day)| + 1))]
  {
  }

  /** The cell reading of one non-header row of `GetSchedule`: the time and,
      from the info cell, subject, teacher and room. */
  method ReadRow(row: Row) returns (timeStr: string, name: string, teacher: string, room: string)
    ensures timeStr == RowTime(row)
    ensures timeStr != "" ==>
      var l := RowLesson(row.cells[|row.cells| - 1], timeStr, 0);
      name == l.name && teacher == l.teacher && room == l.room
  {
    var cells := row.cells;
    timeStr, name, teacher, room := "", "", "", "";
    var infoDivs: seq<string> := [];
    if |cells| == 3 {
      timeStr := FormatTime(CleanText(cells[1].text));
      infoDivs := cells[2].divs;
    } else if |cells| == 2 {
      timeStr := FormatTime(CleanText(cells[0].text));
      infoDivs := cells[1].divs;
    }
    if |infoDivs| >= 3 {
      name := CleanText(infoDivs[0]);
      teacher := FormatName(CleanText(infoDivs[1]));
      room := CleanText(infoDivs[2]);
    }
  }

  /** The row loop of `GetSchedule` and the loop that reads the records off
      in label order. */
  method ParseRows(rows: seq<Row>, requestUrl: string) returns (weekly: seq<Schedule>)
    ensures weekly == Extract(rows, requestUrl)
  {
    var scheduleMap: map<string, Schedule> := map[];
    var scheduleOrder: seq<string> := [];
    var currentDay := "";
    for i := 0 to |rows|
      invariant Track(currentDay) == ScanRows(rows, i).state
      invariant Mirrors(scheduleMap, scheduleOrder, Merge(ScanRows(rows, i).entries, requestUrl))
    {
      ghost var es := ScanRows(rows, i).entries;
      var row := rows[i];
      if i == 0 || Contains(row.text, Marker) {
        ScanHeader(rows, i);
        continue;
      }
      if |row.cells| == 3 {
        currentDay := CleanText(row.cells[0].text);
      }
      ScanRow(rows, i, currentDay);
      var timeStr, name, teacher, room := ReadRow(row);
      if currentDay == "" || timeStr == "" {
        continue;
      }
      MirrorsCount(scheduleMap, scheduleOrder, es, requestUrl, currentDay);
      var lessonNum := (if currentDay in scheduleMap then |scheduleMap[currentDay].lessons| else 0) + 1;
      var lesson := Lesson(Itoa(lessonNum), timeStr, name, teacher, room, "");
      assert lesson == RowLesson(row.cells[|row.cells| - 1], timeStr, lessonNum);
      scheduleMap, scheduleOrder := FileEntry(scheduleMap, scheduleOrder, es, requestUrl, currentDay, lesson);
    }
    weekly := ReadOff(scheduleMap, scheduleOrder, Extract(rows, requestUrl));
  }

  /** The loop that reads the records off the map in label order. */
  method ReadOff(scheduleMap: map<string, Schedule>, scheduleOrder: seq<string>, ghost recs: seq<Schedule>)
    returns (weekly: seq<Schedule>)
    requires Mirrors(scheduleMap, scheduleOrder, recs)
    ensures weekly == recs
  {
    weekly := [];
    for k := 0 to |scheduleOrder|
      invariant weekly == recs[..k]
    {
      weekly := weekly + [scheduleMap[scheduleOrder[k]]];
    }
  }

  // ---------------------------------------------------------------------
  // The group list

  /** The links `GetOptions` keeps: those with an `href` mentioning the group
      schedule path. */
  predicate Keeps(l: Link) {
    l.hasHref && Contains(l.href, GroupPath)
  }

  function OptionOf(l: Link): Option {
    Option(TrimSpace(l.text), l.href)
  }

  /** One option per kept link, in document order, duplicates included. */
  function LinkOptions(links: seq<Link>): seq<Option> {
    if links == [] then []
    else
      var l := links[|links| - 1];
      LinkOptions(links[..|links| - 1]) + (if Keeps(l) then [OptionOf(l)] else [])
  }

  /** The options are exactly the trimmed texts and targets of the kept links. */
  lemma {:induction false} LinkOptionsMembers(links: seq<Link>)
    ensures |LinkOptions(links)| <= |links|
    ensures forall o :: o in LinkOptions(links) <==> exists l :: l in links && Keeps(l) && o == OptionOf(l)
    decreases |links|
  {
    if links != [] {
      var init, l := links[..|links| - 1], links[|links| - 1];
      LinkOptionsMembers(init);
      assert links == init + [l];
      forall o
        ensures o in LinkOptions(links) <==> exists l' :: l' in links && Keeps(l') && o == OptionOf(l')
      {
        if exists l' :: l' in links && Keeps(l') && o == OptionOf(l') {
          var l' :| l' in links && Keeps(l') && o == OptionOf(l');
          if l' != l {
            assert l' in init;
          }
        }
      }
    }
  }

  /** The link loop of `GetOptions`. */
  method ParseOptions(links: seq<Link>) returns (options: seq<Option>)
    ensures options == LinkOptions(links)
  {
    options := [];
    for i := 0 to |links|
      invariant options == LinkOptions(links[..i])
    {
      assert links[..i + 1][..i] == links[..i];
      var link := links[i];
      if link.hasHref && Contains(link.href, GroupPath) {
        options := options + [Option(TrimSpace(link.text), link.href)];
      }
    }
    assert links[..|links|] == links;
  }

  // ---------------------------------------------------------------------
  // The publication date

  /** `\d{2}\.\d{2}\.\d{4}\s\d{2}:\d{2}` at `q`. */
  predicate DateTokenAt(s: string, q: nat) {
    && q + 16 <= |s|
    && IsDigit(s[q]) && IsDigit(s[q + 1]) && s[q + 2] == '.'
    && IsDigit(s[q + 3]) && IsDigit(s[q + 4]) && s[q + 5] == '.'
    && IsDigit(s[q + 6]) && IsDigit(s[q + 7]) && IsDigit(s[q + 8]) && IsDigit(s[q + 9])
    && IsReSpace(s[q + 10])
    && IsDigit(s[q + 11]) && IsDigit(s[q + 12]) && s[q + 13] == ':'
    && IsDigit(s[q + 14]) && IsDigit(s[q + 15])
  }

  /** The whole pattern matches at `p` with `w` characters of white space
      between the marker and the date. */
  predicate UpdateMatch(s: string, p: nat, w: nat) {
    && OccursAt(s, UpdateMarker, p)
    && p + |UpdateMarker| + w <= |s|
    && (forall i :: p + |UpdateMarker| <= i < p + |UpdateMarker| + w ==> IsReSpace(s[i]))
    && DateTokenAt(s, p + |UpdateMarker| + w)
  }

  /** The white space before the date is the whole run after the marker. */
  lemma UpdateMatchRun(s: string, p: nat, w: nat)
    requires UpdateMatch(s, p, w)
    ensures w == ReSpaceRun(s, p + |UpdateMarker|)
  {
    ReSpaceRunExact(s, p + |UpdateMarker|, w);
  }

  /** The leftmost match at or after `p`, as `FindStringSubmatch` reports its
      group: the date text verbatim, or an error when there is none. */
  function SearchUpdate(s: string, p: nat): Result<string>
    requires p <= |s|
    decreases |s| - p
  {
    if p + |UpdateMarker| > |s| then
      Err(UpdateDateNotFound)
    else
      var q := p + |UpdateMarker| + ReSpaceRun(s, p + |UpdateMarker|);
      if MatchHere(s, p) then Ok(s[q..q + 16])
      else SearchUpdate(s, p + 1)
  }

  /** The marker at `p`, the whole run of white space after it, then a date. */
  predicate MatchHere(s: string, p: nat)
    requires p + |UpdateMarker| <= |s|
  {
    OccursAt(s, UpdateMarker, p) && DateTokenAt(s, p + |UpdateMarker| + ReSpaceRun(s, p + |UpdateMarker|))
  }

  /** No position from `p` up to `q` (excluded) starts a match. */
  ghost predicate NoMatchBetween(s: string, p: nat, q: nat) {
    forall q', w' :: p <= q' < q ==> !UpdateMatch(s, q', w')
  }

  /** The search reports what matches first at or after `p`. */
  ghost predicate FoundFrom(s: string, p: nat, date: string) {
    exists q, w :: p <= q && UpdateMatch(s, q, w) && NoMatchBetween(s, p, q)
                   && date == s[q + |UpdateMarker| + w..q + |UpdateMarker| + w + 16]
  }

  lemma FoundFromStep(s: string, p: nat, date: string)
    requires forall w :: !UpdateMatch(s, p, w)
    requires FoundFrom(s, p + 1, date)
    ensures FoundFrom(s, p, date)
  {
    var q, w :| p + 1 <= q && UpdateMatch(s, q, w) && NoMatchBetween(s, p + 1, q)
                && date == s[q + |UpdateMarker| + w..q + |UpdateMarker| + w + 16];
    assert NoMatchBetween(s, p, q);
  }

  /** No position at or after `p` starts a match. */
  ghost predicate NoMatchFrom(s: string, p: nat) {
    forall q, w :: p <= q ==> !UpdateMatch(s, q, w)
  }

  lemma NoMatchFromEnd(s: string, p: nat)
    requires p + |UpdateMarker| > |s|
    ensures NoMatchFrom(s, p)
  {
  }

  lemma NoMatchFromStep(s: string, p: nat)
    requires forall w :: !UpdateMatch(s, p, w)
    requires NoMatchFrom(s, p + 1)
    ensures NoMatchFrom(s, p)
  {
    forall q, w | p <= q
      ensures !UpdateMatch(s, q, w)
    {
      if q > p {
        assert p + 1 <= q;
      }
    }
  }

  /** A match at `p` is what the search reports. */
  lemma SearchUpdateHere(s: string, p: nat)
    requires p + |UpdateMarker| <= |s| && MatchHere(s, p)
    ensures SearchUpdate(s, p).Ok? && FoundFrom(s, p, SearchUpdate(s, p).value)
  {
    var w := ReSpaceRun(s, p + |UpdateMarker|);
    var q := p + |UpdateMarker| + w;
    var r := SearchUpdate(s, p);
    assert r == Ok(s[q..q + 16]);
    assert UpdateMatch(s, p, w) && NoMatchBetween(s, p, p);
  }

  /** Without a match at `p` the search goes on at `p + 1`. */
  lemma SearchUpdateSkip(s: string, p: nat)
    requires p + |UpdateMarker| <= |s| && !MatchHere(s, p)
    ensures SearchUpdate(s, p) == SearchUpdate(s, p + 1)
    ensures forall w :: !UpdateMatch(s, p, w)
  {
    NoMatchHere(s, p);
  }

  /** A date the search reports is the one the leftmost match holds. */
  lemma {:induction false} SearchUpdateFound(s: string, p: nat)
    requires p <= |s| && SearchUpdate(s, p).Ok?
    ensures FoundFrom(s, p, SearchUpdate(s, p).value)
    decreases |s| - p
  {
    assert p + |UpdateMarker| <= |s|;
    if MatchHere(s, p) {
      SearchUpdateHere(s, p);
    } else {
      SearchUpdateSkip(s, p);
      SearchUpdateFound(s, p + 1);
      FoundFromStep(s, p, SearchUpdate(s, p).value);
    }
  }

  /** The search fails only when no position matches. */
  lemma {:induction false} SearchUpdateMissing(s: string, p: nat)
    requires p <= |s| && SearchUpdate(s, p).Err?
    ensures SearchUpdate(s, p).error == UpdateDateNotFound && NoMatchFrom(s, p)
    decreases |s| - p
  {
    if p + |UpdateMarker| > |s| {
      NoMatchFromEnd(s, p);
    } else {
      assert !MatchHere(s, p);
      SearchUpdateSkip(s, p);
      SearchUpdateMissing(s, p + 1);
      NoMatchFromStep(s, p);
    }
  }

  /** The search finds the leftmost match and reports the date it holds, or
      reports that no position at or after `p` matches. */
  lemma SearchUpdateFacts(s: string, p: nat)
    requires p <= |s|
    ensures SearchUpdate(s, p).Ok? ==> FoundFrom(s, p, SearchUpdate(s, p).value)
    ensures SearchUpdate(s, p).Err? ==> SearchUpdate(s, p).error == UpdateDateNotFound && NoMatchFrom(s, p)
  {
    if SearchUpdate(s, p).Ok? {
      SearchUpdateFound(s, p);
    } else {
      SearchUpdateMissing(s, p);
    }
  }

  lemma NoMatchHere(s: string, p: nat)
    requires p + |UpdateMarker| <= |s| && !MatchHere(s, p)
    ensures forall w :: !UpdateMatch(s, p, w)
  {
    forall w | UpdateMatch(s, p, w)
      ensures false
    {
      UpdateMatchRun(s, p, w);
    }
  }

  /** `GetLastUpdateDate` after the fetch, on the page text. */
  function FindUpdateDate(text: string): Result<string> {
    SearchUpdate(text, 0)
  }
}
