/**
  The key-value store behind both controllers (a Redis client in the
  source). Values are kept as the records they encode; an entry that is the
  empty string or that does not decode as the expected list is
  `Undecodable`.
*/
module Cache {
  import opened Model

  /** What the decoder makes of a stored value. */
  datatype Cached = Schedules(days: seq<Schedule>) | Options(items: seq<Option>) | Undecodable

  datatype CacheEntry = CacheEntry(value: Cached, ttl: int)

  /** The expiry every write passes: 60 * 24 * 7, one week counted in minutes. */
  const WeekTtl: int := 60 * 24 * 7

  const GroupsKey := "groups"
  const TeachersKey := "teachers"

  function GroupScheduleKey(value: string): string {
    "group_schedule:" + value
  }

  function TeacherScheduleKey(value: string): string {
    "teacher_schedule:" + value
  }

  /** A schedule read succeeds when the key is present and decodes to a list
      of day records, the empty list included. */
  predicate ScheduleHit(entries: map<string, CacheEntry>, key: string) {
    key in entries && entries[key].value.Schedules?
  }

  /** An option-list read succeeds only when the decoded list is not empty. */
  predicate OptionsHit(entries: map<string, CacheEntry>, key: string) {
    key in entries && entries[key].value.Options? && |entries[key].value.items| != 0
  }

  /** The four key families never collide, and each schedule family is
      injective in its value, so no read ever sees another call's entry. */
  lemma KeysDistinct(v: string, w: string)
    ensures GroupScheduleKey(v) != TeacherScheduleKey(w)
    ensures GroupScheduleKey(v) != GroupsKey && GroupScheduleKey(v) != TeachersKey
    ensures TeacherScheduleKey(v) != GroupsKey && TeacherScheduleKey(v) != TeachersKey
    ensures GroupsKey != TeachersKey
    ensures GroupScheduleKey(v) == GroupScheduleKey(w) <==> v == w
    ensures TeacherScheduleKey(v) == TeacherScheduleKey(w) <==> v == w
  {
    assert GroupScheduleKey(v)[0] != TeacherScheduleKey(w)[0];
    assert GroupScheduleKey(v)[5] != GroupsKey[5];
    assert GroupScheduleKey(v)[0] != TeachersKey[0];
    assert TeacherScheduleKey(v)[0] != GroupsKey[0];
    assert TeacherScheduleKey(v)[7] != TeachersKey[7];
    if GroupScheduleKey(v) == GroupScheduleKey(w) {
      assert v == GroupScheduleKey(v)[15..] == GroupScheduleKey(w)[15..] == w;
    }
    if TeacherScheduleKey(v) == TeacherScheduleKey(w) {
      assert v == TeacherScheduleKey(v)[17..] == TeacherScheduleKey(w)[17..] == w;
    }
  }

  /** The shared store; the controllers of one client all hold the same one. */
  class Store {
    var entries: map<string, CacheEntry>

    constructor (initial: map<string, CacheEntry>)
      ensures entries == initial
    {
      entries := initial;
    }

    /** `SET key value EX ttl`. */
    method Set(key: string, value: Cached, ttl: int)
      modifies this
      ensures entries == old(entries)[key := CacheEntry(value, ttl)]
    {
      entries := entries[key := CacheEntry(value, ttl)];
    }

    /** `FLUSHDB`. */
    method FlushDB()
      modifies this
      ensures entries == map[]
    {
      entries := map[];
    }
  }
}
