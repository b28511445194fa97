/**
  The teacher controller of schedule/teacher/teacher.go. It has no page of
  its own: it asks its own group controller (same store, same site) for the
  group list and for every group's schedule, and builds the teacher's week
  and the list of teachers from them.
*/
module Teacher {
  import opened Text
  import opened Wrappers
  import opened Model
  import opened Cache
  import opened Group
  import opened TeacherView

  /** The results of asking the group controller for every group in turn,
      the store after the last request and the number of requests sent. */
  datatype FanOutcome = FanOutcome(results: seq<Result<seq<Schedule>>>, entries: map<string, CacheEntry>, fetched: nat)

  /** The group `GetSchedule` called for each group value in order, each
      call seeing the store the previous one left. */
  function FanOut(cacheOn: bool, site: Site, entries: map<string, CacheEntry>, groups: seq<Option>): (f: FanOutcome)
    ensures |f.results| == |groups|
    ensures f.fetched <= |groups|
  {
    if groups == [] then FanOutcome([], entries, 0)
    else
      var n := |groups| - 1;
      var prev := FanOut(cacheOn, site, entries, groups[..n]);
      var o := ScheduleCall(cacheOn, site, prev.entries, groups[n].value);
      FanOutcome(prev.results + [o.result], o.entries, prev.fetched + if o.fetched then 1 else 0)
  }

  /** One more group extends the fan-out by one call of the group
      `GetSchedule`, made against the store the earlier calls left. */
  lemma FanOutSnoc(cacheOn: bool, site: Site, entries: map<string, CacheEntry>, groups: seq<Option>, g: nat)
    requires g < |groups|
    ensures var prev := FanOut(cacheOn, site, entries, groups[..g]);
            var o := ScheduleCall(cacheOn, site, prev.entries, groups[g].value);
            FanOut(cacheOn, site, entries, groups[..g + 1])
              == FanOutcome(prev.results + [o.result], o.entries, prev.fetched + if o.fetched then 1 else 0)
  {
    assert groups[..g + 1][..g] == groups[..g];
  }

  /** The teacher `GetSchedule(value)` against a store holding `entries`:
      `r` is a possible result, `after` the store and `fetched` the number
      of requests. The sort of each day may order lessons of equal time
      either way, so this is a relation rather than a function. */
  ghost predicate ScheduleOutcome(cacheOn: bool, site: Site, entries: map<string, CacheEntry>, value: string,
                                  r: Result<seq<Schedule>>, after: map<string, CacheEntry>, fetched: int)
  {
    var key := TeacherScheduleKey(value);
    if cacheOn && ScheduleHit(entries, key) then
      r == Ok(entries[key].value.days) && after == entries && fetched == 0
    else
      var go := OptionsCall(cacheOn, site, entries);
      if go.result.Err? then
        r == Err(go.result.error) && after == go.entries && fetched == 1
      else
        var fan := FanOut(cacheOn, site, go.entries, go.result.value);
        && r.Ok?
        && SortedView(r.value, Merge(Picks(go.result.value, fan.results, value), TeacherHref))
        && after == (if cacheOn && |r.value| > 0 then fan.entries[key := CacheEntry(Schedules(r.value), WeekTtl)] else fan.entries)
        && fetched == (if go.fetched then 1 else 0) + fan.fetched
  }

  /** The teacher `GetOptions()` against a store holding `entries`. */
  ghost predicate OptionsOutcome(cacheOn: bool, site: Site, entries: map<string, CacheEntry>,
                                 r: Result<seq<Option>>, after: map<string, CacheEntry>, fetched: int)
  {
    if cacheOn && OptionsHit(entries, TeachersKey) then
      r == Ok(entries[TeachersKey].value.items) && after == entries && fetched == 0
    else
      var go := OptionsCall(cacheOn, site, entries);
      if go.result.Err? then
        r == Err(go.result.error) && after == go.entries && fetched == 1
      else
        var fan := FanOut(cacheOn, site, go.entries, go.result.value);
        && r.Ok?
        && OptionsOf(r.value, ResultNames(fan.results))
        && after == (if cacheOn && |r.value| != 0 then fan.entries[TeachersKey := CacheEntry(Options(r.value), WeekTtl)] else fan.entries)
        && fetched == (if go.fetched then 1 else 0) + fan.fetched
  }

  // ---------------------------------------------------------------------

  /** The fan-out writes group schedule entries only: every other key, the
      teacher keys among them, is left as it was. */
  lemma {:induction false} FanOutKeeps(cacheOn: bool, site: Site, entries: map<string, CacheEntry>, groups: seq<Option>, key: string)
    requires !HasPrefix(key, "group_schedule:")
    ensures var f := FanOut(cacheOn, site, entries, groups);
      (key in f.entries <==> key in entries) && (key in entries ==> f.entries[key] == entries[key])
    decreases |groups|
  {
    if groups != [] {
      var n := |groups| - 1;
      FanOutKeeps(cacheOn, site, entries, groups[..n], key);
      var v := groups[n].value;
      assert GroupScheduleKey(v)[..|"group_schedule:"|] == "group_schedule:";
    }
  }

  /** With the guard false nothing is read from or written to the store,
      and every group is fetched. */
  lemma {:induction false} FanOutCacheOffStore(site: Site, entries: map<string, CacheEntry>, groups: seq<Option>)
    ensures FanOut(false, site, entries, groups).entries == entries
    ensures FanOut(false, site, entries, groups).fetched == |groups|
    decreases |groups|
  {
    if groups != [] {
      FanOutCacheOffStore(site, entries, groups[..|groups| - 1]);
    }
  }

  /** Each result is then a group page as parsed, so every teacher text in
      the results is `formatName` output. */
  lemma {:induction false} FanOutCacheOffFormatted(site: Site, entries: map<string, CacheEntry>, groups: seq<Option>)
    ensures TeachersFormatted(FanOut(false, site, entries, groups).results)
    decreases |groups|
  {
    if groups != [] {
      var n := |groups| - 1;
      FanOutCacheOffFormatted(site, entries, groups[..n]);
      var f := FanOut(false, site, entries, groups);
      var prev := FanOut(false, site, entries, groups[..n]);
      var o := ScheduleCall(false, site, prev.entries, groups[n].value);
      assert f.results == prev.results + [o.result];
      forall g, j, i | 0 <= g < |f.results| && f.results[g].Ok? && 0 <= j < |f.results[g].value| && 0 <= i < |f.results[g].value[j].lessons|
        ensures GroupFormat.Formatted(f.results[g].value[j].lessons[i].teacher)
      {
        if g < n {
          assert f.results[g] == prev.results[g];
        }
      }
    }
  }

  /** A week that was stored is served again, unchanged and without any
      request, for as long as the store keeps it: the outcome of the second
      call is fully determined. */
  lemma ScheduleWarm(cacheOn: bool, site: Site, entries: map<string, CacheEntry>, value: string,
                     r: Result<seq<Schedule>>, after: map<string, CacheEntry>, fetched: int,
                     later: Site, r2: Result<seq<Schedule>>, after2: map<string, CacheEntry>, fetched2: int)
    requires cacheOn && ScheduleOutcome(cacheOn, site, entries, value, r, after, fetched)
    requires r.Ok? && |r.value| > 0
    requires ScheduleOutcome(cacheOn, later, after, value, r2, after2, fetched2)
    ensures r2 == r && after2 == after && fetched2 == 0
  {
  }

  /** A fragment with a period followed by anything but a space, as in
      "Худякова Н.В.", finds nothing when the store is not used: the result
      is an error or an empty week. */
  lemma FragmentFindsNothing(site: Site, entries: map<string, CacheEntry>, value: string, j: nat,
                             r: Result<seq<Schedule>>, after: map<string, CacheEntry>, fetched: int)
    requires ScheduleOutcome(false, site, entries, value, r, after, fetched)
    requires j + 1 < |value| && value[j] == '.' && value[j + 1] != ' '
    ensures r.Err? || r == Ok([])
  {
    var go := OptionsCall(false, site, entries);
    if go.result.Ok? {
      FanOutCacheOffFormatted(site, go.entries, go.result.value);
      var fan := FanOut(false, site, go.entries, go.result.value);
      FragmentSelectsNothing(go.result.value, fan.results, value, j);
    }
  }

  /** The list of teachers does not depend on the order in which the names
      are drained from the set or on how the sort breaks ties: every call
      on the same store and site returns the same list. */
  lemma OptionsDetermined(cacheOn: bool, site: Site, entries: map<string, CacheEntry>,
                          r1: Result<seq<Option>>, after1: map<string, CacheEntry>, fetched1: int,
                          r2: Result<seq<Option>>, after2: map<string, CacheEntry>, fetched2: int)
    requires OptionsOutcome(cacheOn, site, entries, r1, after1, fetched1)
    requires OptionsOutcome(cacheOn, site, entries, r2, after2, fetched2)
    ensures r1 == r2 && after1 == after2 && fetched1 == fetched2
  {
    if !(cacheOn && OptionsHit(entries, TeachersKey)) {
      var go := OptionsCall(cacheOn, site, entries);
      if go.result.Ok? {
        var fan := FanOut(cacheOn, site, go.entries, go.result.value);
        OptionsUnique(r1.value, r2.value, ResultNames(fan.results));
      }
    }
  }

  /** With the guard false, every teacher the list shows has a non-empty
      week: the listed name, used as the search fragment, finds at least the
      lesson it was taken from. */
  lemma ListedTeacherHasSchedule(site: Site, entries: map<string, CacheEntry>,
                                 r: Result<seq<Option>>, after: map<string, CacheEntry>, fetched: int, k: nat,
                                 r2: Result<seq<Schedule>>, after2: map<string, CacheEntry>, fetched2: int)
    requires OptionsOutcome(false, site, entries, r, after, fetched)
    requires r.Ok? && k < |r.value|
    requires ScheduleOutcome(false, site, after, r.value[k].value, r2, after2, fetched2)
    ensures r2.Ok? && |r2.value| > 0
  {
    var go := OptionsCall(false, site, entries);
    var fan := FanOut(false, site, go.entries, go.result.value);
    FanOutCacheOffStore(site, go.entries, go.result.value);
    FanOutCacheOffFormatted(site, go.entries, go.result.value);
    var name := r.value[k].title;
    assert r.value[k].value == name;
    assert name in ResultNames(fan.results);
    ListedNameSelects(go.result.value, fan.results, name);
  }

  /** A list that was stored is served again without any request. */
  lemma OptionsWarm(cacheOn: bool, site: Site, entries: map<string, CacheEntry>,
                    r: Result<seq<Option>>, after: map<string, CacheEntry>, fetched: int,
                    later: Site, r2: Result<seq<Option>>, after2: map<string, CacheEntry>, fetched2: int)
    requires cacheOn && OptionsOutcome(cacheOn, site, entries, r, after, fetched)
    requires r.Ok? && |r.value| > 0
    requires OptionsOutcome(cacheOn, later, after, r2, after2, fetched2)
    ensures r2 == r && after2 == after && fetched2 == 0
  {
  }

  // ---------------------------------------------------------------------

  class Controller {
    const store: Store
    /** `utils.RedisIsNil(c.r)`, read exactly as the guards write it. */
    const cacheOn: bool
    /** The group controller the teacher controller builds for itself. */
    const group: Group.Controller

    /** Both controllers share the store, the guard and the site. */
    predicate Valid() {
      group.store == store && group.cacheOn == cacheOn
    }

    constructor (store: Store, cacheOn: bool, site: Site)
      ensures Valid() && this.store == store && this.cacheOn == cacheOn
      ensures fresh(group) && group.site == site && group.fetches == 0
    {
      this.store := store;
      this.cacheOn := cacheOn;
      group := new Group.Controller(store, cacheOn, site);
    }

    /** The loop over the groups: each group's schedule through the group
        controller, failures kept as they are. */
    method FanOutSchedules(groups: seq<Option>) returns (results: seq<Result<seq<Schedule>>>)
      requires Valid()
      modifies group, store
      ensures var f := FanOut(cacheOn, group.site, old(store.entries), groups);
        && results == f.results
        && store.entries == f.entries
        && group.fetches == old(group.fetches) + f.fetched
    {
      results := [];
      for g := 0 to |groups|
        invariant var f := FanOut(cacheOn, group.site, old(store.entries), groups[..g]);
          && results == f.results
          && store.entries == f.entries
          && group.fetches == old(group.fetches) + f.fetched
      {
        FanOutSnoc(cacheOn, group.site, old(store.entries), groups, g);
        var groupSchedule := group.GetSchedule(groups[g].value);
        results := results + [groupSchedule];
      }
      assert groups[..|groups|] == groups;
    }

    method GetSchedule(value: string) returns (r: Result<seq<Schedule>>)
      requires Valid()
      modifies group, store
      ensures ScheduleOutcome(cacheOn, group.site, old(store.entries), value, r, store.entries, group.fetches - old(group.fetches))
    {
      var key := TeacherScheduleKey(value);
      if cacheOn && key in store.entries && store.entries[key].value.Schedules? {
        return Ok(store.entries[key].value.days);
      }
      ghost var go := OptionsCall(cacheOn, group.site, store.entries);
      var groups := group.GetOptions();
      assert groups == go.result && store.entries == go.entries;
      if groups.Err? {
        return Err(groups.error);
      }
      var results := FanOutSchedules(groups.value);
      ghost var fan := FanOut(cacheOn, group.site, go.entries, groups.value);
      assert results == fan.results && store.entries == fan.entries;
      var weeklySchedule := Synthesize(groups.value, results, value);
      if cacheOn && |weeklySchedule| > 0 {
        store.Set(key, Schedules(weeklySchedule), WeekTtl);
      }
      return Ok(weeklySchedule);
    }

    method GetOptions() returns (r: Result<seq<Option>>)
      requires Valid()
      modifies group, store
      ensures OptionsOutcome(cacheOn, group.site, old(store.entries), r, store.entries, group.fetches - old(group.fetches))
    {
      if cacheOn && TeachersKey in store.entries && store.entries[TeachersKey].value.Options?
         && |store.entries[TeachersKey].value.items| != 0 {
        return Ok(store.entries[TeachersKey].value.items);
      }
      ghost var go := OptionsCall(cacheOn, group.site, store.entries);
      var groups := group.GetOptions();
      assert groups == go.result && store.entries == go.entries;
      if groups.Err? {
        return Err(groups.error);
      }
      var results := FanOutSchedules(groups.value);
      ghost var fan := FanOut(cacheOn, group.site, go.entries, groups.value);
      assert results == fan.results && store.entries == fan.entries;
      var teachersMap := CollectNames(results);
      var options := BuildOptions(teachersMap);
      if cacheOn && |options| != 0 {
        store.Set(TeachersKey, Options(options), WeekTtl);
      }
      return Ok(options);
    }
  }
}
