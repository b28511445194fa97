/**
  The records the parser produces (Go package `model`) and the merge of
  lessons into one record per day label in first-seen order, which both the
  group view and the teacher view perform.
*/
module Model {

  /** One class occurrence. `group` is filled only in the teacher view,
      `teacher` only in the group view. */
  datatype Lesson = Lesson(num: string, time: string, name: string, teacher: string, room: string, group: string)

  /** One day's lessons for a group or a teacher; `date` is the day label as
      the page shows it. */
  datatype Schedule = Schedule(date: string, href: string, lessons: seq<Lesson>)

  /** A selectable group or teacher (`Label` in the source is `title` here,
      `label` being a Dafny keyword). */
  datatype Option = Option(title: string, value: string)

  /** A lesson together with the day label it is to be filed under. */
  datatype Entry = Entry(day: string, lesson: Lesson)

  predicate Distinct(s: seq<string>) {
    forall i, j :: 0 <= i < j < |s| ==> s[i] != s[j]
  }

  function Dates(recs: seq<Schedule>): (ds: seq<string>)
    ensures |ds| == |recs| && forall k :: 0 <= k < |recs| ==> ds[k] == recs[k].date
  {
    seq(|recs|, k requires 0 <= k < |recs| => recs[k].date)
  }

  function Days(es: seq<Entry>): seq<string> {
    if es == [] then [] else Days(es[..|es| - 1]) + [es[|es| - 1].day]
  }

  /** The distinct elements of `ds` in the order of their first occurrence. */
  function FirstSeen(ds: seq<string>): seq<string> {
    if ds == [] then []
    else
      var prev := FirstSeen(ds[..|ds| - 1]);
      if ds[|ds| - 1] in prev then prev else prev + [ds[|ds| - 1]]
  }

  /** The lessons filed under day `d`, in entry order. */
  function LessonsOn(es: seq<Entry>, d: string): seq<Lesson> {
    if es == [] then []
    else LessonsOn(es[..|es| - 1], d) + (if es[|es| - 1].day == d then [es[|es| - 1].lesson] else [])
  }

  /** Position of the first record labelled `d`, or `|recs|` when there is none. */
  function DayIndex(recs: seq<Schedule>, d: string): (k: nat)
    ensures k <= |recs|
    ensures k < |recs| ==> recs[k].date == d
    ensures forall j :: 0 <= j < k ==> recs[j].date != d
  {
    if recs == [] then 0
    else if recs[0].date == d then 0
    else 1 + DayIndex(recs[1..], d)
  }

  /** Files one lesson: appended to the record of its day, or to a new record
      at the end when the day has not been seen. */
  function AddEntry(recs: seq<Schedule>, href: string, e: Entry): seq<Schedule> {
    var k := DayIndex(recs, e.day);
    if k < |recs| then recs[k := recs[k].(lessons := recs[k].lessons + [e.lesson])]
    else recs + [Schedule(e.day, href, [e.lesson])]
  }

  /** All entries filed in order, every new record pointing at `href`. */
  function Merge(es: seq<Entry>, href: string): seq<Schedule> {
    if es == [] then [] else AddEntry(Merge(es[..|es| - 1], href), href, es[|es| - 1])
  }

  // ---------------------------------------------------------------------

  lemma LessonsOnSnoc(es: seq<Entry>, e: Entry, d: string)
    ensures LessonsOn(es + [e], d) == LessonsOn(es, d) + (if e.day == d then [e.lesson] else [])
  {
    assert (es + [e])[..|es|] == es;
  }

  /** First-seen order has no repetitions and the same elements. */
  lemma {:induction false} FirstSeenFacts(ds: seq<string>)
    ensures Distinct(FirstSeen(ds))
    ensures forall d :: d in FirstSeen(ds) <==> d in ds
    decreases |ds|
  {
    if ds != [] {
      var init := ds[..|ds| - 1];
      FirstSeenFacts(init);
      assert ds == init + [ds[|ds| - 1]];
    }
  }

  lemma {:induction false} DaysMembers(es: seq<Entry>)
    ensures |Days(es)| == |es|
    ensures forall d :: d in Days(es) <==> exists i :: 0 <= i < |es| && es[i].day == d
    decreases |es|
  {
    if es != [] {
      var init := es[..|es| - 1];
      DaysMembers(init);
      forall d
        ensures d in Days(es) <==> exists i :: 0 <= i < |es| && es[i].day == d
      {
        if d in Days(init) {
          var i :| 0 <= i < |init| && init[i].day == d;
          assert es[i] == init[i];
        }
        if i :| 0 <= i < |es| && es[i].day == d {
          if i < |init| {
            assert init[i] == es[i];
          }
        }
      }
    }
  }

  /** A day no entry carries has no lessons. */
  lemma {:induction false} LessonsOnAbsent(es: seq<Entry>, d: string)
    requires d !in Days(es)
    ensures LessonsOn(es, d) == []
    decreases |es|
  {
    if es != [] {
      LessonsOnAbsent(es[..|es| - 1], d);
    }
  }

  /** The merge keeps one record per day label in first-seen order, every
      record points at `href`, and each record holds exactly the lessons of
      its day in entry order. */
  lemma {:induction false} MergeFacts(es: seq<Entry>, href: string)
    ensures var recs := Merge(es, href);
      && Dates(recs) == FirstSeen(Days(es))
      && Distinct(Dates(recs))
      && (forall k :: 0 <= k < |recs| ==> recs[k].href == href)
      && (forall k :: 0 <= k < |recs| ==> recs[k].lessons == LessonsOn(es, recs[k].date))
    decreases |es|
  {
    if es != [] {
      var init, x := es[..|es| - 1], es[|es| - 1];
      MergeFacts(init, href);
      FirstSeenFacts(Days(init));
      var prev := Merge(init, href);
      var recs := Merge(es, href);
      assert Days(es)[..|Days(es)| - 1] == Days(init);
      var k := DayIndex(prev, x.day);
      if k < |prev| {
        assert x.day in Dates(prev);
        assert Dates(recs) == Dates(prev);
      } else {
        assert x.day !in Dates(prev);
        assert Dates(recs) == Dates(prev) + [x.day];
        LessonsOnAbsent(init, x.day);
      }
      FirstSeenFacts(Days(es));
      forall j | 0 <= j < |recs|
        ensures recs[j].lessons == LessonsOn(es, recs[j].date)
      {
        if j < |prev| && j != k {
          assert recs[j] == prev[j];
          if k < |prev| {
            assert Dates(prev)[j] != Dates(prev)[k];
          }
        }
      }
    }
  }

  /** Filing at least one entry yields at least one record. */
  lemma MergeNonEmpty(es: seq<Entry>, href: string)
    requires es != []
    ensures |Merge(es, href)| > 0
  {
    MergeFacts(es, href);
    DaysMembers(es);
    FirstSeenFacts(Days(es));
    assert es[0].day in Days(es);
    assert es[0].day in Dates(Merge(es, href));
  }

  // ---------------------------------------------------------------------
  // The imperative form: a map from day label to record plus the list of
  // labels in insertion order (`scheduleMap` and `scheduleOrder` in the
  // source).

  /** `m` and `order` represent `recs`. */
  ghost predicate Mirrors(m: map<string, Schedule>, order: seq<string>, recs: seq<Schedule>) {
    && |order| == |recs|
    && (forall k :: 0 <= k < |recs| ==> order[k] == recs[k].date && order[k] in m && m[order[k]] == recs[k])
    && (forall d :: d in m ==> d in order)
  }

  lemma MergeSnoc(es: seq<Entry>, href: string, e: Entry)
    ensures Merge(es + [e], href) == AddEntry(Merge(es, href), href, e)
  {
    assert (es + [e])[..|es + [e]| - 1] == es;
  }

  lemma AddMirrorsKnown(m: map<string, Schedule>, order: seq<string>, recs: seq<Schedule>, href: string, e: Entry)
    requires Mirrors(m, order, recs) && Distinct(Dates(recs))
    requires e.day in m
    ensures Mirrors(m[e.day := m[e.day].(lessons := m[e.day].lessons + [e.lesson])], order, AddEntry(recs, href, e))
  {
    var d := e.day;
    var k := DayIndex(recs, d);
    var i :| 0 <= i < |order| && order[i] == d;
    assert k <= i;
    assert Dates(recs)[k] == Dates(recs)[i];
    var r1 := recs[k := recs[k].(lessons := recs[k].lessons + [e.lesson])];
    var m1 := m[d := m[d].(lessons := m[d].lessons + [e.lesson])];
    forall j | 0 <= j < |r1|
      ensures order[j] == r1[j].date && order[j] in m1 && m1[order[j]] == r1[j]
    {
      if j != k {
        assert Dates(recs)[j] != Dates(recs)[k];
      }
    }
  }

  lemma AddMirrorsNew(m: map<string, Schedule>, order: seq<string>, recs: seq<Schedule>, href: string, e: Entry)
    requires Mirrors(m, order, recs)
    requires e.day !in m
    ensures Mirrors(m[e.day := Schedule(e.day, href, [e.lesson])], order + [e.day], AddEntry(recs, href, e))
  {
    var d := e.day;
    assert DayIndex(recs, d) == |recs|;
    var r1 := recs + [Schedule(d, href, [e.lesson])];
    var m1 := m[d := Schedule(d, href, [e.lesson])];
    var o1 := order + [d];
    forall j | 0 <= j < |r1|
      ensures o1[j] == r1[j].date && o1[j] in m1 && m1[o1[j]] == r1[j]
    {
      if j < |recs| {
        assert o1[j] == order[j] && order[j] in m;
      }
    }
  }

  /** Filing one more entry the way the loops of the source do it: create an
      empty record (and remember its label) when the day is new, then append
      the lesson to the day's record. */
  lemma AddMirrors(m: map<string, Schedule>, order: seq<string>, es: seq<Entry>, href: string, e: Entry)
    requires Mirrors(m, order, Merge(es, href))
    ensures var m1 := if e.day in m then m else m[e.day := Schedule(e.day, href, [])];
            var o1 := if e.day in m then order else order + [e.day];
            Mirrors(m1[e.day := m1[e.day].(lessons := m1[e.day].lessons + [e.lesson])], o1, Merge(es + [e], href))
  {
    MergeFacts(es, href);
    MergeSnoc(es, href, e);
    if e.day in m {
      AddMirrorsKnown(m, order, Merge(es, href), href, e);
    } else {
      AddMirrorsNew(m, order, Merge(es, href), href, e);
      var d := e.day;
      var m1 := m[d := Schedule(d, href, [])];
      assert m1[d].lessons + [e.lesson] == [e.lesson];
      assert m1[d := m1[d].(lessons := m1[d].lessons + [e.lesson])] == m[d := Schedule(d, href, [e.lesson])];
    }
  }

  /** The filing step both views perform on their map and order list: a new
      day gets an empty record and its label is remembered, then the lesson
      is appended to the day's record. */
  method FileEntry(m: map<string, Schedule>, order: seq<string>, ghost es: seq<Entry>, href: string, day: string, lesson: Lesson)
    returns (m1: map<string, Schedule>, order1: seq<string>)
    requires Mirrors(m, order, Merge(es, href))
    ensures Mirrors(m1, order1, Merge(es + [Entry(day, lesson)], href))
  {
    AddMirrors(m, order, es, href, Entry(day, lesson));
    m1, order1 := m, order;
    if day !in m1 {
      m1 := m1[day := Schedule(day, href, [])];
      order1 := order1 + [day];
    }
    m1 := m1[day := m1[day].(lessons := m1[day].lessons + [lesson])];
  }

  /** The number of lessons already filed under `d`, as the map shows it. */
  lemma MirrorsCount(m: map<string, Schedule>, order: seq<string>, es: seq<Entry>, href: string, d: string)
    requires Mirrors(m, order, Merge(es, href))
    ensures |LessonsOn(es, d)| == if d in m then |m[d].lessons| else 0
  {
    MergeFacts(es, href);
    var recs := Merge(es, href);
    if d in m {
      var i :| 0 <= i < |order| && order[i] == d;
    } else {
      FirstSeenFacts(Days(es));
      assert d !in Dates(recs);
      assert d !in Days(es);
      LessonsOnAbsent(es, d);
    }
  }
}
