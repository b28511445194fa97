/**
  The group controller of schedule/group/group.go: the cache-through
  `GetSchedule` and `GetOptions`, `GetLastUpdateDate` and `ClearCache`.
  The college site is a value mapping each address to its parsed page; an
  address it lacks is a transport failure. Each controller counts the
  requests it sends.
*/
module Group {
  import opened Text
  import opened Wrappers
  import opened Model
  import opened GroupFormat
  import opened GroupParse
  import opened Cache

  /** The page listing all groups and carrying the publication date. */
  const SchedulePageUrl := "https://omsk-osma.ru/shedule_kolledzh"

  datatype Site = Site(pages: map<string, Page>)

  function FetchPage(site: Site, url: string): (r: Result<Page>)
    ensures r.Ok? <==> url in site.pages
    ensures r.Ok? ==> r.value == site.pages[url]
    ensures r.Err? ==> r.error == Transport(url)
  {
    if url in site.pages then Ok(site.pages[url]) else Err(Transport(url))
  }

  /** What one call returns, the store after it and whether it went to the
      site. */
  datatype Outcome<T> = Outcome(result: Result<T>, entries: map<string, CacheEntry>, fetched: bool)

  /** The records of a parsed group page at `href`. */
  ghost predicate GroupView(recs: seq<Schedule>, href: string) {
    && Distinct(Dates(recs))
    && (forall k :: 0 <= k < |recs| ==> recs[k].date != "" && recs[k].href == href)
    && (forall k, j :: 0 <= k < |recs| && 0 <= j < |recs[k].lessons| ==>
          recs[k].lessons[j].num == Itoa(j + 1) && recs[k].lessons[j].group == ""
          && Formatted(recs[k].lessons[j].teacher))
  }

  /** `GetSchedule(value)` against a store holding `entries`. */
  function ScheduleCall(cacheOn: bool, site: Site, entries: map<string, CacheEntry>, value: string): (o: Outcome<seq<Schedule>>)
    ensures var key := GroupScheduleKey(value);
      && (cacheOn && ScheduleHit(entries, key) ==> o == Outcome(Ok(entries[key].value.days), entries, false))
      && (!(cacheOn && ScheduleHit(entries, key)) ==> o.fetched)
      && (o.fetched && o.result.Ok? ==>
            var url := RequestUrl(value);
            && url in site.pages
            && o.result.value == Extract(SelectedRows(site.pages[url].tables), url)
            && GroupView(o.result.value, url))
      && (o.result.Err? ==> o.result.error == Transport(RequestUrl(value)) && RequestUrl(value) !in site.pages)
      && (if o.fetched && cacheOn && o.result.Ok? && |o.result.value| > 0
          then o.entries == entries[key := CacheEntry(Schedules(o.result.value), WeekTtl)]
          else o.entries == entries)
  {
    var key := GroupScheduleKey(value);
    if cacheOn && ScheduleHit(entries, key) then
      Outcome(Ok(entries[key].value.days), entries, false)
    else
      var url := RequestUrl(value);
      match FetchPage(site, url)
      case Err(e) => Outcome(Err(e), entries, true)
      case Ok(page) =>
        var rows := SelectedRows(page.tables);
        var weekly := Extract(rows, url);
        ExtractFacts(rows, url);
        Outcome(Ok(weekly), if cacheOn && |weekly| > 0 then entries[key := CacheEntry(Schedules(weekly), WeekTtl)] else entries, true)
  }

  /** `GetOptions()` against a store holding `entries`. */
  function OptionsCall(cacheOn: bool, site: Site, entries: map<string, CacheEntry>): (o: Outcome<seq<Option>>)
    ensures cacheOn && OptionsHit(entries, GroupsKey) ==> o == Outcome(Ok(entries[GroupsKey].value.items), entries, false)
    ensures !(cacheOn && OptionsHit(entries, GroupsKey)) ==> o.fetched
    ensures o.fetched && o.result.Ok? ==>
      SchedulePageUrl in site.pages && o.result.value == LinkOptions(site.pages[SchedulePageUrl].links)
    ensures o.result.Err? ==> o.result.error == Transport(SchedulePageUrl) && SchedulePageUrl !in site.pages
    ensures if o.fetched && cacheOn && o.result.Ok? && |o.result.value| != 0
            then o.entries == entries[GroupsKey := CacheEntry(Options(o.result.value), WeekTtl)]
            else o.entries == entries
  {
    if cacheOn && OptionsHit(entries, GroupsKey) then
      Outcome(Ok(entries[GroupsKey].value.items), entries, false)
    else
      match FetchPage(site, SchedulePageUrl)
      case Err(e) => Outcome(Err(e), entries, true)
      case Ok(page) =>
        var options := LinkOptions(page.links);
        Outcome(Ok(options), if cacheOn && |options| != 0 then entries[GroupsKey := CacheEntry(Options(options), WeekTtl)] else entries, true)
  }

  /** `GetLastUpdateDate()`: always a request, never the store. */
  function UpdateDateCall(site: Site): (r: Result<string>)
    ensures SchedulePageUrl !in site.pages ==> r == Err(Transport(SchedulePageUrl))
    ensures SchedulePageUrl in site.pages ==> r == FindUpdateDate(site.pages[SchedulePageUrl].text)
  {
    match FetchPage(site, SchedulePageUrl)
    case Err(e) => Err(e)
    case Ok(page) => FindUpdateDate(page.text)
  }

  /** The store after `ClearCache()`: flushed only when the guard
      `RedisIsNil` is false, the opposite of the guard on every read and
      write. */
  function Cleared(cacheOn: bool, entries: map<string, CacheEntry>): (e: map<string, CacheEntry>)
    ensures cacheOn ==> e == entries
    ensures !cacheOn ==> e == map[]
  {
    if cacheOn then entries else map[]
  }

  // ---------------------------------------------------------------------

  /** A second request for a group whose first request filled the store is
      answered from the store with the same records and no request. */
  lemma ScheduleWarm(cacheOn: bool, site: Site, entries: map<string, CacheEntry>, value: string)
    requires cacheOn
    requires var o := ScheduleCall(cacheOn, site, entries, value); o.result.Ok? && |o.result.value| > 0
    ensures var o := ScheduleCall(cacheOn, site, entries, value);
            ScheduleCall(cacheOn, site, o.entries, value) == Outcome(o.result, o.entries, false)
  {
    var key := GroupScheduleKey(value);
    var o := ScheduleCall(cacheOn, site, entries, value);
    assert ScheduleHit(o.entries, key);
  }

  /** Once the store holds a group's records, clearing the cache (with the
      guard true) keeps them, and later requests return them without asking
      the site, whatever the site now shows. */
  lemma ScheduleServedAfterClear(site: Site, entries: map<string, CacheEntry>, value: string, later: Site)
    requires var o := ScheduleCall(true, site, entries, value); o.result.Ok? && |o.result.value| > 0
    ensures var o := ScheduleCall(true, site, entries, value);
            var e := Cleared(true, o.entries);
            ScheduleCall(true, later, e, value) == Outcome(o.result, e, false)
  {
    var o := ScheduleCall(true, site, entries, value);
    assert ScheduleHit(o.entries, GroupScheduleKey(value));
  }

  /** With the guard false the store is neither read nor written: the result
      depends on the site alone. */
  lemma ScheduleCacheOff(site: Site, e1: map<string, CacheEntry>, e2: map<string, CacheEntry>, value: string)
    ensures ScheduleCall(false, site, e1, value).result == ScheduleCall(false, site, e2, value).result
    ensures ScheduleCall(false, site, e1, value).entries == e1
  {
  }

  /** A second group-list request after one that filled the store is
      answered from the store. */
  lemma OptionsWarm(cacheOn: bool, site: Site, entries: map<string, CacheEntry>)
    requires cacheOn
    requires var o := OptionsCall(cacheOn, site, entries); o.result.Ok? && |o.result.value| > 0
    ensures var o := OptionsCall(cacheOn, site, entries);
            OptionsCall(cacheOn, site, o.entries) == Outcome(o.result, o.entries, false)
  {
    var o := OptionsCall(cacheOn, site, entries);
    assert OptionsHit(o.entries, GroupsKey);
  }

  /** A stored empty list is not a hit: the site is asked again. */
  lemma OptionsEmptyNotHit(site: Site, entries: map<string, CacheEntry>)
    requires GroupsKey in entries && entries[GroupsKey].value == Options([])
    ensures OptionsCall(true, site, entries).fetched
  {
  }

  // ---------------------------------------------------------------------

  class Controller {
    const store: Store
    /** `utils.RedisIsNil(c.r)`, read exactly as the guards write it. */
    const cacheOn: bool
    const site: Site
    /** Requests sent to the site so far. */
    var fetches: nat

    constructor (store: Store, cacheOn: bool, site: Site)
      ensures this.store == store && this.cacheOn == cacheOn && this.site == site && fetches == 0
    {
      this.store := store;
      this.cacheOn := cacheOn;
      this.site := site;
      fetches := 0;
    }

    /** One GET request. */
    method Fetch(url: string) returns (r: Result<Page>)
      modifies this
      ensures r == FetchPage(site, url)
      ensures fetches == old(fetches) + 1
    {
      fetches := fetches + 1;
      if url in site.pages {
        r := Ok(site.pages[url]);
      } else {
        r := Err(Transport(url));
      }
    }

    method GetSchedule(value: string) returns (r: Result<seq<Schedule>>)
      modifies this, store
      ensures var o := ScheduleCall(cacheOn, site, old(store.entries), value);
        && r == o.result
        && store.entries == o.entries
        && fetches == old(fetches) + (if o.fetched then 1 else 0)
    {
      var key := GroupScheduleKey(value);
      if cacheOn && key in store.entries && store.entries[key].value.Schedules? {
        return Ok(store.entries[key].value.days);
      }
      var requestUrl := RequestUrl(value);
      var page := Fetch(requestUrl);
      if page.Err? {
        return Err(page.error);
      }
      var rows := ScheduleRows(page.value.tables);
      var weeklySchedule := ParseRows(rows, requestUrl);
      if cacheOn && |weeklySchedule| > 0 {
        store.Set(key, Schedules(weeklySchedule), WeekTtl);
      }
      return Ok(weeklySchedule);
    }

    method GetOptions() returns (r: Result<seq<Option>>)
      modifies this, store
      ensures var o := OptionsCall(cacheOn, site, old(store.entries));
        && r == o.result
        && store.entries == o.entries
        && fetches == old(fetches) + (if o.fetched then 1 else 0)
    {
      if cacheOn && GroupsKey in store.entries && store.entries[GroupsKey].value.Options?
         && |store.entries[GroupsKey].value.items| != 0 {
        return Ok(store.entries[GroupsKey].value.items);
      }
      var page := Fetch(SchedulePageUrl);
      if page.Err? {
        return Err(page.error);
      }
      var options := ParseOptions(page.value.links);
      if cacheOn && |options| != 0 {
        store.Set(GroupsKey, Options(options), WeekTtl);
      }
      return Ok(options);
    }

    method GetLastUpdateDate() returns (r: Result<string>)
      modifies this
      ensures r == UpdateDateCall(site)
      ensures fetches == old(fetches) + 1
    {
      var page := Fetch(SchedulePageUrl);
      if page.Err? {
        return Err(page.error);
      }
      return FindUpdateDate(page.value.text);
    }

    method ClearCache()
      modifies store
      ensures store.entries == Cleared(cacheOn, old(store.entries))
    {
      if !cacheOn {
        store.FlushDB();
      }
    }
  }
}
