/**
  The public facade of hmtpk.go: a name guard in front of the group and
  teacher schedules, a page guard in front of the announcements, and plain
  delegation for everything else. The group controller, the teacher
  controller and the teacher controller's own group controller all share
  one store and one site.
*/
module Hmtpk {
  import opened Wrappers
  import opened Model
  import opened Cache
  import opened Group
  import opened Teacher

  /** `model.Announces` is not part of this model; the facade only passes
      it on. */
  datatype Announces = Announces(items: seq<string>)

  /** The names `getSchedule` refuses before asking any controller. */
  predicate Rejected(name: string) {
    name == "" || name == "0"
  }

  /** `GetAnnounces(page)` in front of the announcement source `announce`. */
  function AnnouncesCall(announce: int -> Result<Announces>, page: int): (r: Result<Announces>)
    ensures page < 1 ==> r == Err(BadRequest)
    ensures page >= 1 ==> r == announce(page)
  {
    if page < 1 then Err(BadRequest) else announce(page)
  }

  class Controller {
    const group: Group.Controller
    const teacher: Teacher.Controller
    /** The announcement source (the `announce` package). */
    const announce: int -> Result<Announces>

    /** Every controller works on the same store with the same guard and
        the same site. */
    predicate Valid() {
      && teacher.Valid()
      && group.store == teacher.store
      && group.cacheOn == teacher.cacheOn
      && group.site == teacher.group.site
      && group != teacher.group
    }

    constructor (store: Store, cacheOn: bool, site: Site, announce: int -> Result<Announces>)
      ensures Valid() && group.store == store && group.cacheOn == cacheOn && group.site == site
      ensures this.announce == announce
      ensures fresh(group) && fresh(teacher) && fresh(teacher.group)
    {
      group := new Group.Controller(store, cacheOn, site);
      teacher := new Teacher.Controller(store, cacheOn, site);
      this.announce := announce;
    }

    method GetScheduleByGroup(name: string) returns (r: Result<seq<Schedule>>)
      requires Valid()
      modifies group, group.store
      ensures Rejected(name) ==> r == Err(BadRequest) && group.store.entries == old(group.store.entries) && group.fetches == old(group.fetches)
      ensures !Rejected(name) ==>
        var o := ScheduleCall(group.cacheOn, group.site, old(group.store.entries), name);
        && r == o.result
        && group.store.entries == o.entries
        && group.fetches == old(group.fetches) + (if o.fetched then 1 else 0)
    {
      if Rejected(name) {
        return Err(BadRequest);
      }
      r := group.GetSchedule(name);
    }

    method GetScheduleByTeacher(name: string) returns (r: Result<seq<Schedule>>)
      requires Valid()
      modifies teacher.group, teacher.store
      ensures Rejected(name) ==> r == Err(BadRequest) && teacher.store.entries == old(teacher.store.entries) && teacher.group.fetches == old(teacher.group.fetches)
      ensures !Rejected(name) ==>
        ScheduleOutcome(teacher.cacheOn, teacher.group.site, old(teacher.store.entries), name, r,
                        teacher.store.entries, teacher.group.fetches - old(teacher.group.fetches))
    {
      if Rejected(name) {
        return Err(BadRequest);
      }
      r := teacher.GetSchedule(name);
    }

    method GetGroupOptions() returns (r: Result<seq<Option>>)
      requires Valid()
      modifies group, group.store
      ensures var o := OptionsCall(group.cacheOn, group.site, old(group.store.entries));
        && r == o.result
        && group.store.entries == o.entries
        && group.fetches == old(group.fetches) + (if o.fetched then 1 else 0)
    {
      r := group.GetOptions();
    }

    method GetTeacherOptions() returns (r: Result<seq<Option>>)
      requires Valid()
      modifies teacher.group, teacher.store
      ensures OptionsOutcome(teacher.cacheOn, teacher.group.site, old(teacher.store.entries), r,
                             teacher.store.entries, teacher.group.fetches - old(teacher.group.fetches))
    {
      r := teacher.GetOptions();
    }

    method GetAnnounces(page: int) returns (r: Result<Announces>)
      ensures r == AnnouncesCall(announce, page)
    {
      if page < 1 {
        return Err(BadRequest);
      }
      r := announce(page);
    }

    method GetLastUpdateDate() returns (r: Result<string>)
      requires Valid()
      modifies group
      ensures r == UpdateDateCall(group.site)
      ensures group.fetches == old(group.fetches) + 1
    {
      r := group.GetLastUpdateDate();
    }

    method ClearCache()
      requires Valid()
      modifies group.store
      ensures group.store.entries == Cleared(group.cacheOn, old(group.store.entries))
    {
      group.ClearCache();
    }
  }
}
