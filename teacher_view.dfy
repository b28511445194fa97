/**
  What schedule/teacher/teacher.go computes from the group schedules it
  fetched: the teacher's week (selection by teacher text, relabelling, merge
  by day, sort by time) and the list of all teachers (names extracted from
  every teacher text, deduplicated, sorted).
*/
module TeacherView {
  import opened Text
  import opened Wrappers
  import opened Model
  import opened Order
  import opened GroupFormat
  import opened TeacherNames

  /** The address every teacher day record points at. */
  const TeacherHref := "https://omsk-osma.ru/shedule_kolledzh"

  function TimeOf(l: Lesson): string {
    l.time
  }

  function TitleOf(o: Option): string {
    o.title
  }

  /** The copy of a selected lesson: the group it came from set, the teacher
      cleared, everything else kept. */
  function Relabel(l: Lesson, group: string): (r: Lesson)
    ensures r.group == group && r.teacher == ""
    ensures r.num == l.num && r.time == l.time && r.name == l.name && r.room == l.room
  {
    l.(group := group, teacher := "")
  }

  /** The selected lessons of one day of one group, in lesson order. */
  function LessonPicks(ls: seq<Lesson>, date: string, group: string, value: string): seq<Entry> {
    if ls == [] then []
    else
      var l := ls[|ls| - 1];
      LessonPicks(ls[..|ls| - 1], date, group, value)
        + (if Contains(l.teacher, value) then [Entry(date, Relabel(l, group))] else [])
  }

  /** The selected lessons of one group, day after day. */
  function DayPicks(days: seq<Schedule>, group: string, value: string): seq<Entry> {
    if days == [] then []
    else
      var d := days[|days| - 1];
      DayPicks(days[..|days| - 1], group, value) + LessonPicks(d.lessons, d.date, group, value)
  }

  /** The selected lessons of all groups, group after group; a group whose
      schedule could not be had contributes nothing. */
  function Picks(groups: seq<Option>, results: seq<Result<seq<Schedule>>>, value: string): seq<Entry>
    requires |groups| == |results|
  {
    if groups == [] then []
    else
      var n := |groups| - 1;
      Picks(groups[..n], results[..n], value)
        + (if results[n].Ok? then DayPicks(results[n].value, groups[n].title, value) else [])
  }

  // ---------------------------------------------------------------------
  // Selection: exactly the lessons whose teacher text contains the fragment

  lemma {:induction false} LessonPicksMembers(ls: seq<Lesson>, date: string, group: string, value: string)
    ensures forall e :: e in LessonPicks(ls, date, group, value) <==>
      exists i :: 0 <= i < |ls| && Contains(ls[i].teacher, value) && e == Entry(date, Relabel(ls[i], group))
    decreases |ls|
  {
    if ls != [] {
      var init := ls[..|ls| - 1];
      LessonPicksMembers(init, date, group, value);
      forall e
        ensures e in LessonPicks(ls, date, group, value) <==>
          exists i :: 0 <= i < |ls| && Contains(ls[i].teacher, value) && e == Entry(date, Relabel(ls[i], group))
      {
        if e in LessonPicks(init, date, group, value) {
          var i :| 0 <= i < |init| && Contains(init[i].teacher, value) && e == Entry(date, Relabel(init[i], group));
          assert ls[i] == init[i];
        }
        if i :| 0 <= i < |ls| && Contains(ls[i].teacher, value) && e == Entry(date, Relabel(ls[i], group)) {
          if i < |init| {
            assert init[i] == ls[i];
          }
        }
      }
    }
  }

  lemma {:induction false} DayPicksMembers(days: seq<Schedule>, group: string, value: string)
    ensures forall e :: e in DayPicks(days, group, value) <==>
      exists j, i :: 0 <= j < |days| && 0 <= i < |days[j].lessons| && Contains(days[j].lessons[i].teacher, value)
                     && e == Entry(days[j].date, Relabel(days[j].lessons[i], group))
  {
    forall e
      ensures e in DayPicks(days, group, value) <==> PickedDay(days, group, value, e)
    {
      DayPicksMember(days, group, value, e);
    }
  }

  lemma {:induction false} DayPicksMember(days: seq<Schedule>, group: string, value: string, e: Entry)
    ensures e in DayPicks(days, group, value) <==> PickedDay(days, group, value, e)
    decreases |days|
  {
    if days != [] {
      var n := |days| - 1;
      var d := days[n];
      DayPicksMember(days[..n], group, value, e);
      LessonPicksMembers(d.lessons, d.date, group, value);
      if PickedDay(days[..n], group, value, e) {
        PickedDayInit(days, group, value, e, n);
      }
      if e in LessonPicks(d.lessons, d.date, group, value) {
        var i :| 0 <= i < |d.lessons| && Contains(d.lessons[i].teacher, value) && e == Entry(d.date, Relabel(d.lessons[i], group));
        assert PickedDay(days, group, value, e);
      }
      if PickedDay(days, group, value, e) {
        PickedDayCases(days, group, value, e);
      }
    }
  }

  lemma PickedDayInit(days: seq<Schedule>, group: string, value: string, e: Entry, n: nat)
    requires n <= |days| && PickedDay(days[..n], group, value, e)
    ensures PickedDay(days, group, value, e)
  {
    var init := days[..n];
    var j, i :| 0 <= j < |init| && 0 <= i < |init[j].lessons| && Contains(init[j].lessons[i].teacher, value)
                && e == Entry(init[j].date, Relabel(init[j].lessons[i], group));
    assert days[j] == init[j];
  }

  lemma PickedDayCases(days: seq<Schedule>, group: string, value: string, e: Entry)
    requires |days| > 0 && PickedDay(days, group, value, e)
    ensures var n := |days| - 1;
            var d := days[n];
            PickedDay(days[..n], group, value, e)
            || exists i :: 0 <= i < |d.lessons| && Contains(d.lessons[i].teacher, value) && e == Entry(d.date, Relabel(d.lessons[i], group))
  {
    var n := |days| - 1;
    var init := days[..n];
    var j, i :| 0 <= j < |days| && 0 <= i < |days[j].lessons| && Contains(days[j].lessons[i].teacher, value)
                && e == Entry(days[j].date, Relabel(days[j].lessons[i], group));
    if j < n {
      assert init[j] == days[j];
      assert PickedDay(init, group, value, e);
    }
  }

  /** A lesson is selected iff its teacher text contains the fragment; its
      copy carries the group's title, an empty teacher and the lesson's
      day. */
  lemma {:induction false} PicksMembers(groups: seq<Option>, results: seq<Result<seq<Schedule>>>, value: string)
    requires |groups| == |results|
    ensures forall e :: e in Picks(groups, results, value) <==>
      exists g, j, i :: 0 <= g < |groups| && results[g].Ok? && 0 <= j < |results[g].value|
                        && 0 <= i < |results[g].value[j].lessons|
                        && Contains(results[g].value[j].lessons[i].teacher, value)
                        && e == Entry(results[g].value[j].date, Relabel(results[g].value[j].lessons[i], groups[g].title))
  {
    forall e
      ensures e in Picks(groups, results, value) <==>
        exists g, j, i :: 0 <= g < |groups| && results[g].Ok? && 0 <= j < |results[g].value|
                          && 0 <= i < |results[g].value[j].lessons|
                          && Contains(results[g].value[j].lessons[i].teacher, value)
                          && e == Entry(results[g].value[j].date, Relabel(results[g].value[j].lessons[i], groups[g].title))
    {
      PicksMember(groups, results, value, e);
    }
  }

  /** `e` is a selected lesson of one of the groups, relabelled. */
  ghost predicate PickedIn(groups: seq<Option>, results: seq<Result<seq<Schedule>>>, value: string, e: Entry)
    requires |groups| == |results|
  {
    exists g, j, i :: 0 <= g < |groups| && results[g].Ok? && 0 <= j < |results[g].value|
                      && 0 <= i < |results[g].value[j].lessons|
                      && Contains(results[g].value[j].lessons[i].teacher, value)
                      && e == Entry(results[g].value[j].date, Relabel(results[g].value[j].lessons[i], groups[g].title))
  }

  /** `e` is a selected lesson of one group's days, relabelled. */
  ghost predicate PickedDay(days: seq<Schedule>, group: string, value: string, e: Entry) {
    exists j, i :: 0 <= j < |days| && 0 <= i < |days[j].lessons| && Contains(days[j].lessons[i].teacher, value)
                   && e == Entry(days[j].date, Relabel(days[j].lessons[i], group))
  }

  lemma PickedInInit(groups: seq<Option>, results: seq<Result<seq<Schedule>>>, value: string, e: Entry, n: nat)
    requires |groups| == |results| && n <= |groups| && PickedIn(groups[..n], results[..n], value, e)
    ensures PickedIn(groups, results, value, e)
  {
    var gi, ri := groups[..n], results[..n];
    var g, j, i :| 0 <= g < |gi| && ri[g].Ok? && 0 <= j < |ri[g].value| && 0 <= i < |ri[g].value[j].lessons|
                   && Contains(ri[g].value[j].lessons[i].teacher, value)
                   && e == Entry(ri[g].value[j].date, Relabel(ri[g].value[j].lessons[i], gi[g].title));
    assert results[g] == ri[g] && groups[g] == gi[g];
  }

  lemma PickedInLast(groups: seq<Option>, results: seq<Result<seq<Schedule>>>, value: string, e: Entry, n: nat)
    requires |groups| == |results| && n < |groups|
    requires results[n].Ok? && PickedDay(results[n].value, groups[n].title, value, e)
    ensures PickedIn(groups, results, value, e)
  {
    var days := results[n].value;
    var j, i :| 0 <= j < |days| && 0 <= i < |days[j].lessons| && Contains(days[j].lessons[i].teacher, value)
                && e == Entry(days[j].date, Relabel(days[j].lessons[i], groups[n].title));
  }

  lemma PickedInCases(groups: seq<Option>, results: seq<Result<seq<Schedule>>>, value: string, e: Entry)
    requires |groups| == |results| > 0 && PickedIn(groups, results, value, e)
    ensures var n := |groups| - 1;
            PickedIn(groups[..n], results[..n], value, e)
            || (results[n].Ok? && PickedDay(results[n].value, groups[n].title, value, e))
  {
    var n := |groups| - 1;
    var gi, ri := groups[..n], results[..n];
    var g, j, i :| 0 <= g < |groups| && results[g].Ok? && 0 <= j < |results[g].value|
                   && 0 <= i < |results[g].value[j].lessons|
                   && Contains(results[g].value[j].lessons[i].teacher, value)
                   && e == Entry(results[g].value[j].date, Relabel(results[g].value[j].lessons[i], groups[g].title));
    if g < n {
      assert ri[g] == results[g] && gi[g] == groups[g];
      assert PickedIn(gi, ri, value, e);
    } else {
      assert PickedDay(results[n].value, groups[n].title, value, e);
    }
  }

  lemma PickedInSnoc(groups: seq<Option>, results: seq<Result<seq<Schedule>>>, value: string, e: Entry)
    requires |groups| == |results| > 0
    ensures var n := |groups| - 1;
            PickedIn(groups, results, value, e) <==>
              PickedIn(groups[..n], results[..n], value, e)
              || (results[n].Ok? && PickedDay(results[n].value, groups[n].title, value, e))
  {
    var n := |groups| - 1;
    if PickedIn(groups[..n], results[..n], value, e) {
      PickedInInit(groups, results, value, e, n);
    }
    if results[n].Ok? && PickedDay(results[n].value, groups[n].title, value, e) {
      PickedInLast(groups, results, value, e, n);
    }
    if PickedIn(groups, results, value, e) {
      PickedInCases(groups, results, value, e);
    }
  }

  lemma {:induction false} PicksMember(groups: seq<Option>, results: seq<Result<seq<Schedule>>>, value: string, e: Entry)
    requires |groups| == |results|
    ensures e in Picks(groups, results, value) <==> PickedIn(groups, results, value, e)
    decreases |groups|
  {
    if groups != [] {
      var n := |groups| - 1;
      var gi, ri := groups[..n], results[..n];
      PicksMember(gi, ri, value, e);
      if results[n].Ok? {
        DayPicksMembers(results[n].value, groups[n].title, value);
        assert e in DayPicks(results[n].value, groups[n].title, value) <==> PickedDay(results[n].value, groups[n].title, value, e);
      }
      PickedInSnoc(groups, results, value, e);
    }
  }

  // ---------------------------------------------------------------------
  // The teacher's week

  /** `weekly` is the merge `recs` with each day's lessons sorted by time:
      same days in the same order, same addresses, each day's lessons
      non-decreasing by time and a permutation of the merged ones. */
  ghost predicate SortedView(weekly: seq<Schedule>, recs: seq<Schedule>) {
    && |weekly| == |recs|
    && forall k :: 0 <= k < |recs| ==>
         && weekly[k].date == recs[k].date
         && weekly[k].href == recs[k].href
         && SortedBy(weekly[k].lessons, TimeOf)
         && multiset(weekly[k].lessons) == multiset(recs[k].lessons)
  }

  /** The week before sorting: one record per day label in first-seen
      order, all pointing at the college page, each holding exactly the
      day's selected lessons with no teacher set. */
  lemma TeacherMergeFacts(groups: seq<Option>, results: seq<Result<seq<Schedule>>>, value: string)
    requires |groups| == |results|
    ensures var es := Picks(groups, results, value);
            var recs := Merge(es, TeacherHref);
      && Distinct(Dates(recs))
      && Dates(recs) == FirstSeen(Days(es))
      && (forall k :: 0 <= k < |recs| ==> recs[k].href == TeacherHref && recs[k].lessons == LessonsOn(es, recs[k].date))
      && (forall k, l :: 0 <= k < |recs| && l in recs[k].lessons ==> l.teacher == "")
  {
    var es := Picks(groups, results, value);
    var recs := Merge(es, TeacherHref);
    MergeFacts(es, TeacherHref);
    PicksMembers(groups, results, value);
    forall k, l | 0 <= k < |recs| && l in recs[k].lessons
      ensures l.teacher == ""
    {
      var i := LessonsOnMember(es, recs[k].date, l);
      assert es[i] in es;
    }
  }

  /** A lesson filed under a day comes from an entry of that day. */
  lemma {:induction false} LessonsOnMember(es: seq<Entry>, d: string, l: Lesson) returns (i: nat)
    requires l in LessonsOn(es, d)
    ensures i < |es| && es[i] == Entry(d, l)
    decreases |es|
  {
    var init := es[..|es| - 1];
    if l in LessonsOn(init, d) {
      i := LessonsOnMember(init, d, l);
    } else {
      i := |es| - 1;
    }
  }

  /** The day loop of the teacher `GetSchedule`: the lessons of one record
      sorted in place by time. */
  method SortDay(sched: Schedule) returns (sorted: Schedule)
    ensures sorted.date == sched.date && sorted.href == sched.href
    ensures SortedBy(sorted.lessons, TimeOf)
    ensures multiset(sorted.lessons) == multiset(sched.lessons)
  {
    var ls := sched.lessons;
    var a := new Lesson[|ls|](i requires 0 <= i < |ls| => ls[i]);
    assert a[..] == ls;
    SortBy(a, TimeOf);
    sorted := sched.(lessons := a[..]);
  }

  /** The innermost loop of the teacher `GetSchedule`: the selected lessons
      of one day of one group filed into the map of days. */
  method FileDay(m: map<string, Schedule>, order: seq<string>, ghost es: seq<Entry>, day: Schedule, title: string, value: string)
    returns (scheduleMap: map<string, Schedule>, scheduleOrder: seq<string>)
    requires Mirrors(m, order, Merge(es, TeacherHref))
    ensures Mirrors(scheduleMap, scheduleOrder, Merge(es + LessonPicks(day.lessons, day.date, title, value), TeacherHref))
  {
    scheduleMap, scheduleOrder := m, order;
    assert es + LessonPicks(day.lessons[..0], day.date, title, value) == es;
    for i := 0 to |day.lessons|
      invariant Mirrors(scheduleMap, scheduleOrder, Merge(es + LessonPicks(day.lessons[..i], day.date, title, value), TeacherHref))
    {
      ghost var upTo := es + LessonPicks(day.lessons[..i], day.date, title, value);
      var lesson := day.lessons[i];
      LessonPicksStep(day.lessons, i, day.date, title, value);
      if Contains(lesson.teacher, value) {
        var teacherLesson := lesson.(group := title, teacher := "");
        assert teacherLesson == Relabel(lesson, title);
        assert es + LessonPicks(day.lessons[..i + 1], day.date, title, value) == upTo + [Entry(day.date, teacherLesson)];
        scheduleMap, scheduleOrder := FileEntry(scheduleMap, scheduleOrder, upTo, TeacherHref, day.date, teacherLesson);
      } else {
        assert es + LessonPicks(day.lessons[..i + 1], day.date, title, value) == upTo;
      }
    }
    assert day.lessons[..|day.lessons|] == day.lessons;
  }

  lemma LessonPicksStep(ls: seq<Lesson>, i: nat, date: string, group: string, value: string)
    requires i < |ls|
    ensures LessonPicks(ls[..i + 1], date, group, value) == LessonPicks(ls[..i], date, group, value)
              + (if Contains(ls[i].teacher, value) then [Entry(date, Relabel(ls[i], group))] else [])
  {
    assert ls[..i + 1][..i] == ls[..i];
  }

  /** The middle loop: the days of one group's schedule. */
  method FileGroup(m: map<string, Schedule>, order: seq<string>, ghost es: seq<Entry>, groupSchedule: seq<Schedule>, title: string, value: string)
    returns (scheduleMap: map<string, Schedule>, scheduleOrder: seq<string>)
    requires Mirrors(m, order, Merge(es, TeacherHref))
    ensures Mirrors(scheduleMap, scheduleOrder, Merge(es + DayPicks(groupSchedule, title, value), TeacherHref))
  {
    scheduleMap, scheduleOrder := m, order;
    assert es + DayPicks(groupSchedule[..0], title, value) == es;
    for j := 0 to |groupSchedule|
      invariant Mirrors(scheduleMap, scheduleOrder, Merge(es + DayPicks(groupSchedule[..j], title, value), TeacherHref))
    {
      assert groupSchedule[..j + 1][..j] == groupSchedule[..j];
      var day := groupSchedule[j];
      ghost var upTo := es + DayPicks(groupSchedule[..j], title, value);
      assert es + DayPicks(groupSchedule[..j + 1], title, value) == upTo + LessonPicks(day.lessons, day.date, title, value);
      scheduleMap, scheduleOrder := FileDay(scheduleMap, scheduleOrder, upTo, day, title, value);
    }
    assert groupSchedule[..|groupSchedule|] == groupSchedule;
  }

  /** The teacher `GetSchedule` after the fan-out: the group results it
      fetched filed day by day, then each day sorted by time. */
  method Synthesize(groups: seq<Option>, results: seq<Result<seq<Schedule>>>, value: string) returns (weekly: seq<Schedule>)
    requires |groups| == |results|
    ensures SortedView(weekly, Merge(Picks(groups, results, value), TeacherHref))
  {
    var scheduleMap: map<string, Schedule> := map[];
    var scheduleOrder: seq<string> := [];
    for g := 0 to |groups|
      invariant Mirrors(scheduleMap, scheduleOrder, Merge(Picks(groups[..g], results[..g], value), TeacherHref))
    {
      assert groups[..g + 1][..g] == groups[..g] && results[..g + 1][..g] == results[..g];
      ghost var before := Picks(groups[..g], results[..g], value);
      if results[g].Ok? {
        assert Picks(groups[..g + 1], results[..g + 1], value) == before + DayPicks(results[g].value, groups[g].title, value);
        scheduleMap, scheduleOrder := FileGroup(scheduleMap, scheduleOrder, before, results[g].value, groups[g].title, value);
      } else {
        assert Picks(groups[..g + 1], results[..g + 1], value) == before;
      }
    }
    assert groups[..|groups|] == groups && results[..|results|] == results;
    weekly := SortDays(scheduleMap, scheduleOrder, Merge(Picks(groups, results, value), TeacherHref));
  }

  /** The loop that reads the days off the map in label order, sorting the
      lessons of each by time. */
  method SortDays(scheduleMap: map<string, Schedule>, scheduleOrder: seq<string>, ghost recs: seq<Schedule>)
    returns (weekly: seq<Schedule>)
    requires Mirrors(scheduleMap, scheduleOrder, recs)
    ensures SortedView(weekly, recs)
  {
    weekly := [];
    for k := 0 to |scheduleOrder|
      invariant SortedView(weekly, recs[..k])
    {
      var sched := SortDay(scheduleMap[scheduleOrder[k]]);
      weekly := weekly + [sched];
    }
    assert recs[..|recs|] == recs;
  }

  /** Every teacher text in the results is `formatName` output. */
  ghost predicate TeachersFormatted(results: seq<Result<seq<Schedule>>>) {
    forall g, j, i :: 0 <= g < |results| && results[g].Ok? && 0 <= j < |results[g].value|
                      && 0 <= i < |results[g].value[j].lessons| ==>
                        Formatted(results[g].value[j].lessons[i].teacher)
  }

  /** A `formatName` output never contains a fragment with a period
      followed by anything but a space. */
  lemma FragmentNotContained(t: string, value: string, j: nat)
    requires Formatted(t)
    requires j + 1 < |value| && value[j] == '.' && value[j + 1] != ' '
    ensures !Contains(t, value)
  {
  }

  /** A sequence with no members is empty. */
  lemma NoMembersEmpty<T>(s: seq<T>)
    requires forall x :: x !in s
    ensures s == []
  {
    forall x
      ensures multiset(s)[x] == 0
    {
      assert x !in s;
    }
    assert multiset(s) == multiset{};
  }

  /** So such a fragment, as in "Худякова Н.В.", selects nothing over group
      pages as parsed, and the week is empty. */
  lemma FragmentSelectsNothing(groups: seq<Option>, results: seq<Result<seq<Schedule>>>, value: string, j: nat)
    requires |groups| == |results| && TeachersFormatted(results)
    requires j + 1 < |value| && value[j] == '.' && value[j + 1] != ' '
    ensures Picks(groups, results, value) == []
    ensures Merge(Picks(groups, results, value), TeacherHref) == []
  {
    PicksMembers(groups, results, value);
    forall g, j', i | 0 <= g < |results| && results[g].Ok? && 0 <= j' < |results[g].value| && 0 <= i < |results[g].value[j'].lessons|
      ensures !Contains(results[g].value[j'].lessons[i].teacher, value)
    {
      FragmentNotContained(results[g].value[j'].lessons[i].teacher, value, j);
    }
    NoMembersEmpty(Picks(groups, results, value));
  }

  // ---------------------------------------------------------------------
  // The list of teachers

  /** The union of `f` over the teacher texts of some lessons. */
  function LessonsUnion(ls: seq<Lesson>, f: string -> set<string>): set<string> {
    if ls == [] then {} else LessonsUnion(ls[..|ls| - 1], f) + f(ls[|ls| - 1].teacher)
  }

  function DaysUnion(days: seq<Schedule>, f: string -> set<string>): set<string> {
    if days == [] then {} else DaysUnion(days[..|days| - 1], f) + LessonsUnion(days[|days| - 1].lessons, f)
  }

  /** The union of `f` over the teacher texts of all group schedules that
      could be had. */
  function ResultsUnion(results: seq<Result<seq<Schedule>>>, f: string -> set<string>): set<string> {
    if results == [] then {}
    else
      var r := results[|results| - 1];
      ResultsUnion(results[..|results| - 1], f) + (if r.Ok? then DaysUnion(r.value, f) else {})
  }

  /** The names the teacher `GetOptions` collects. */
  function ResultNames(results: seq<Result<seq<Schedule>>>): set<string> {
    ResultsUnion(results, NamesOf)
  }

  lemma {:induction false} LessonsUnionMembers(ls: seq<Lesson>, f: string -> set<string>, name: string)
    ensures name in LessonsUnion(ls, f) <==> exists i :: 0 <= i < |ls| && name in f(ls[i].teacher)
    decreases |ls|
  {
    if ls != [] {
      var init := ls[..|ls| - 1];
      LessonsUnionMembers(init, f, name);
      if name in LessonsUnion(init, f) {
        var i :| 0 <= i < |init| && name in f(init[i].teacher);
        assert ls[i] == init[i];
      }
      if i :| 0 <= i < |ls| && name in f(ls[i].teacher) {
        if i < |init| {
          assert init[i] == ls[i];
        }
      }
    }
  }

  lemma {:induction false} DaysUnionMembers(days: seq<Schedule>, f: string -> set<string>, name: string)
    ensures name in DaysUnion(days, f) <==>
      exists j, i :: 0 <= j < |days| && 0 <= i < |days[j].lessons| && name in f(days[j].lessons[i].teacher)
    decreases |days|
  {
    if days != [] {
      var init, d := days[..|days| - 1], days[|days| - 1];
      DaysUnionMembers(init, f, name);
      LessonsUnionMembers(d.lessons, f, name);
      if name in DaysUnion(init, f) {
        var j, i :| 0 <= j < |init| && 0 <= i < |init[j].lessons| && name in f(init[j].lessons[i].teacher);
        assert days[j] == init[j];
      }
      if name in LessonsUnion(d.lessons, f) {
        var i :| 0 <= i < |d.lessons| && name in f(d.lessons[i].teacher);
        assert days[|days| - 1] == d;
      }
      if j, i :| 0 <= j < |days| && 0 <= i < |days[j].lessons| && name in f(days[j].lessons[i].teacher) {
        if j < |init| {
          assert init[j] == days[j];
        }
      }
    }
  }

  /** A name is in the union iff some lesson of a group schedule that could
      be had yields it. */
  lemma {:induction false} ResultsUnionMembers(results: seq<Result<seq<Schedule>>>, f: string -> set<string>, name: string)
    ensures name in ResultsUnion(results, f) <==>
      exists g, j, i :: 0 <= g < |results| && results[g].Ok? && 0 <= j < |results[g].value|
                        && 0 <= i < |results[g].value[j].lessons|
                        && name in f(results[g].value[j].lessons[i].teacher)
    decreases |results|
  {
    if results != [] {
      var n := |results| - 1;
      var init, r := results[..n], results[n];
      ResultsUnionMembers(init, f, name);
      if r.Ok? {
        DaysUnionMembers(r.value, f, name);
      }
      if name in ResultsUnion(init, f) {
        var g, j, i :| 0 <= g < |init| && init[g].Ok? && 0 <= j < |init[g].value| && 0 <= i < |init[g].value[j].lessons|
                       && name in f(init[g].value[j].lessons[i].teacher);
        assert results[g] == init[g];
      }
      if r.Ok? && name in DaysUnion(r.value, f) {
        var j, i :| 0 <= j < |r.value| && 0 <= i < |r.value[j].lessons| && name in f(r.value[j].lessons[i].teacher);
        assert results[n] == r;
      }
      if g, j, i :| 0 <= g < |results| && results[g].Ok? && 0 <= j < |results[g].value|
                    && 0 <= i < |results[g].value[j].lessons|
                    && name in f(results[g].value[j].lessons[i].teacher) {
        if g < n {
          assert init[g] == results[g];
        }
      }
    }
  }

  /** Every collected name has the shape "Surname I. O.": taken from a
      match of the teacher pattern in some lesson's teacher text. */
  lemma CollectedNameShape(results: seq<Result<seq<Schedule>>>, name: string)
    returns (g: nat, j: nat, i: nat, p: nat, a: nat, b: nat, c: nat)
    requires name in ResultNames(results)
    ensures g < |results| && results[g].Ok? && j < |results[g].value| && i < |results[g].value[j].lessons|
    ensures var t := results[g].value[j].lessons[i].teacher;
      NameShape(t, p, a, b, c) && name == t[p..p + 1 + a] + " " + [t[p + 1 + a + b], '.', ' ', t[p + 3 + a + b + c], '.']
  {
    ResultsUnionMembers(results, NamesOf, name);
    g, j, i :| 0 <= g < |results| && results[g].Ok? && 0 <= j < |results[g].value|
               && 0 <= i < |results[g].value[j].lessons|
               && name in NamesOf(results[g].value[j].lessons[i].teacher);
    p, a, b, c := NamesOfShape(results[g].value[j].lessons[i].teacher, name);
  }

  /** Every collected name, used as the search fragment, selects at least
      the lesson it was taken from: the teacher's week is not empty. */
  lemma ListedNameSelects(groups: seq<Option>, results: seq<Result<seq<Schedule>>>, name: string)
    requires |groups| == |results| && TeachersFormatted(results)
    requires name in ResultNames(results)
    ensures Picks(groups, results, name) != []
    ensures |Merge(Picks(groups, results, name), TeacherHref)| > 0
  {
    ResultsUnionMembers(results, NamesOf, name);
    var g, j, i :| 0 <= g < |results| && results[g].Ok? && 0 <= j < |results[g].value|
                   && 0 <= i < |results[g].value[j].lessons|
                   && name in NamesOf(results[g].value[j].lessons[i].teacher);
    var l := results[g].value[j].lessons[i];
    NameInFormatted(l.teacher, name);
    PicksMembers(groups, results, name);
    assert Entry(results[g].value[j].date, Relabel(l, groups[g].title)) in Picks(groups, results, name);
    MergeNonEmpty(Picks(groups, results, name), TeacherHref);
  }

  /** The loop over the matches of one teacher text. */
  method AddNames(names: set<string>, teacher: string) returns (teachersMap: set<string>)
    ensures teachersMap == names + NamesOf(teacher)
  {
    teachersMap := names;
    if teacher != "" {
      var matches := FindNames(teacher);
      for k := 0 to |matches|
        invariant teachersMap == names + NamesIn(matches[..k])
      {
        NamesInSnoc(matches, k);
        var name := TrimSpace(matches[k]);
        name := Dotted(name);
        name := Join(Fields(name), " ");
        assert name == Normalize(matches[k]);
        if name != "" {
          teachersMap := teachersMap + {name};
        }
      }
      assert matches[..|matches|] == matches;
    }
  }

  /** The loop over the lessons of one day. */
  method AddDayNames(names: set<string>, ls: seq<Lesson>) returns (teachersMap: set<string>)
    ensures teachersMap == names + LessonsUnion(ls, NamesOf)
  {
    teachersMap := names;
    for i := 0 to |ls|
      invariant teachersMap == names + LessonsUnion(ls[..i], NamesOf)
    {
      assert ls[..i + 1][..i] == ls[..i];
      teachersMap := AddNames(teachersMap, ls[i].teacher);
    }
    assert ls[..|ls|] == ls;
  }

  /** The loop over the days of one group schedule. */
  method AddGroupNames(names: set<string>, groupSchedule: seq<Schedule>) returns (teachersMap: set<string>)
    ensures teachersMap == names + DaysUnion(groupSchedule, NamesOf)
  {
    teachersMap := names;
    for j := 0 to |groupSchedule|
      invariant teachersMap == names + DaysUnion(groupSchedule[..j], NamesOf)
    {
      assert groupSchedule[..j + 1][..j] == groupSchedule[..j];
      teachersMap := AddDayNames(teachersMap, groupSchedule[j].lessons);
    }
    assert groupSchedule[..|groupSchedule|] == groupSchedule;
  }

  /** The nested loops of the teacher `GetOptions` over the group results it
      fetched; group schedules that could not be had are skipped. */
  method CollectNames(results: seq<Result<seq<Schedule>>>) returns (teachersMap: set<string>)
    ensures teachersMap == ResultNames(results)
  {
    teachersMap := {};
    for g := 0 to |results|
      invariant teachersMap == ResultsUnion(results[..g], NamesOf)
    {
      assert results[..g + 1][..g] == results[..g];
      if results[g].Ok? {
        teachersMap := AddGroupNames(teachersMap, results[g].value);
      }
    }
    assert results[..|results|] == results;
  }

  /** The options list of the teacher `GetOptions`: one option per collected
      name, label and value both the name, ordered by label. */
  ghost predicate OptionsOf(options: seq<Option>, names: set<string>) {
    && StrictlySortedBy(options, TitleOf)
    && (forall k :: 0 <= k < |options| ==> options[k].title == options[k].value)
    && (forall name :: name in names <==> exists k :: 0 <= k < |options| && options[k].title == name)
  }

  /** An element occurs at most once in a sequence without repetitions. */
  lemma {:induction false} CountDistinct<T>(s: seq<T>, x: T)
    requires forall i, j :: 0 <= i < j < |s| ==> s[i] != s[j]
    ensures multiset(s)[x] <= 1
    decreases |s|
  {
    if s != [] {
      var init := s[..|s| - 1];
      assert s == init + [s[|s| - 1]];
      CountDistinct(init, x);
      if s[|s| - 1] == x {
        assert x !in init;
      }
    }
  }

  /** A permutation of a sequence without repetitions has none either. */
  lemma DistinctByMultiset<T>(s: seq<T>, t: seq<T>)
    requires multiset(s) == multiset(t)
    requires forall i, j :: 0 <= i < j < |s| ==> s[i] != s[j]
    ensures forall i, j :: 0 <= i < j < |t| ==> t[i] != t[j]
  {
    forall i, j | 0 <= i < j < |t|
      ensures t[i] != t[j]
    {
      if t[i] == t[j] {
        assert t == t[..i] + [t[i]] + t[i + 1..j] + [t[j]] + t[j + 1..];
        assert multiset(t)[t[i]] >= 2;
        CountDistinct(s, t[i]);
      }
    }
  }

  /** One option per name, label and value both the name, no option twice:
      the list the loop over the name set builds, in whatever order. */
  ghost predicate Listed(list: seq<Option>, names: set<string>) {
    && (forall k :: 0 <= k < |list| ==> list[k] == Option(list[k].title, list[k].title))
    && (forall i, j :: 0 <= i < j < |list| ==> list[i] != list[j])
    && (forall name :: name in names <==> exists k :: 0 <= k < |list| && list[k].title == name)
    && |list| == |names|
  }

  /** The loop over the collected names; Go visits a map in no fixed order,
      and any order is allowed here. */
  method ListNames(names: set<string>) returns (list: seq<Option>)
    ensures Listed(list, names)
  {
    var rest := names;
    list := [];
    while rest != {}
      invariant forall k :: 0 <= k < |list| ==> list[k] == Option(list[k].title, list[k].title) && list[k].title !in rest
      invariant forall i, j :: 0 <= i < j < |list| ==> list[i] != list[j]
      invariant forall name :: name in names <==> name in rest || exists k :: 0 <= k < |list| && list[k].title == name
      invariant |list| + |rest| == |names|
      decreases |rest|
    {
      var teacherName :| teacherName in rest;
      ghost var before := list;
      list := list + [Option(teacherName, teacherName)];
      rest := rest - {teacherName};
      forall name | name in names && name !in rest && name != teacherName
        ensures exists k :: 0 <= k < |list| && list[k].title == name
      {
        var k :| 0 <= k < |before| && before[k].title == name;
        assert list[k] == before[k];
      }
      forall name | exists k :: 0 <= k < |list| && list[k].title == name
        ensures name in names
      {
        var k :| 0 <= k < |list| && list[k].title == name;
        if k < |before| {
          assert before[k] == list[k];
        }
      }
      assert list[|list| - 1].title == teacherName;
    }
  }

  /** Sorting such a list by label gives the options list of the names. */
  lemma SortedListed(list: seq<Option>, options: seq<Option>, names: set<string>)
    requires Listed(list, names)
    requires multiset(options) == multiset(list) && SortedBy(options, TitleOf)
    ensures OptionsOf(options, names) && |options| == |names|
  {
    DistinctByMultiset(list, options);
    assert |options| == |multiset(options)| == |list|;
    forall k | 0 <= k < |options|
      ensures options[k] == Option(options[k].title, options[k].title)
      ensures exists m :: 0 <= m < |list| && list[m] == options[k]
    {
      assert options[k] in multiset(list);
    }
    forall name | name in names
      ensures exists k :: 0 <= k < |options| && options[k].title == name
    {
      var m :| 0 <= m < |list| && list[m].title == name;
      assert list[m] in multiset(options);
    }
    SortedDistinct(options, TitleOf);
  }

  /** The loop over the collected names followed by the sort by label. */
  method BuildOptions(names: set<string>) returns (options: seq<Option>)
    ensures OptionsOf(options, names)
    ensures |options| == |names|
  {
    var list := ListNames(names);
    var a := new Option[|list|](i requires 0 <= i < |list| => list[i]);
    assert a[..] == list;
    SortBy(a, TitleOf);
    options := a[..];
    SortedListed(list, options, names);
  }

  /** The head of an options list is its least name; the tail is the
      options list of the other names. */
  lemma OptionsTail(o: seq<Option>, names: set<string>)
    requires OptionsOf(o, names) && o != []
    ensures o[0].title in names
    ensures forall name :: name in names && name != o[0].title ==> Less(o[0].title, name)
    ensures OptionsOf(o[1..], names - {o[0].title})
  {
    var x := o[0].title;
    var rest := names - {x};
    var t := o[1..];
    forall name | name in names && name != x
      ensures Less(x, name)
    {
      var k :| 0 <= k < |o| && o[k].title == name;
    }
    forall i, j | 0 <= i < j < |t|
      ensures Less(TitleOf(t[i]), TitleOf(t[j]))
    {
      assert t[i] == o[i + 1] && t[j] == o[j + 1];
    }
    forall name
      ensures name in rest <==> exists k :: 0 <= k < |t| && t[k].title == name
    {
      if name in rest {
        var k :| 0 <= k < |o| && o[k].title == name;
        assert t[k - 1] == o[k];
      }
      if k :| 0 <= k < |t| && t[k].title == name {
        assert o[k + 1] == t[k];
        assert Less(x, name);
        LessIrreflexive(x);
      }
    }
  }

  /** The options list is determined by the set of names: however the
      names are drained from the set and however the sort breaks ties, the
      result is the same. */
  lemma {:induction false} OptionsUnique(o1: seq<Option>, o2: seq<Option>, names: set<string>)
    requires OptionsOf(o1, names) && OptionsOf(o2, names)
    ensures o1 == o2
    decreases |o1|
  {
    if o1 == [] {
      if o2 != [] {
        OptionsTail(o2, names);
      }
    } else {
      OptionsTail(o1, names);
      assert o2 != [];
      OptionsTail(o2, names);
      var x, y := o1[0].title, o2[0].title;
      if x != y {
        LessAsymmetric(x, y);
      }
      OptionsUnique(o1[1..], o2[1..], names - {x});
      assert o1 == [o1[0]] + o1[1..] && o2 == [o2[0]] + o2[1..];
    }
  }
}
