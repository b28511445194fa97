# medcolosma_parser core in Dafny

This project models the schedule core of `medcolosma_parser`, a Go library
that reads the college timetable of the Omsk medical academy
(`https://omsk-osma.ru/shedule_kolledzh`) and serves it per group and per
teacher, with a Redis cache in front. It covers three parts.

- **The group controller** (`schedule/group/group.go`) does four things.
  - It prefixes a group value into a request URL.
  - It picks the timetable table and scans its rows. The scan tracks the
    current day, files each lesson under its day label in first-seen order
    and numbers lessons 1, 2, … within a day.
  - It cleans lesson texts: `formatTime` and `formatName`.
  - It lists the group links and finds the "Расписание сформировано:"
    timestamp.
- **The teacher controller** (`schedule/teacher/teacher.go`) asks its own
  group controller for every group's week. From those weeks it builds two
  things:
  - the teacher's week: lessons whose teacher text contains the fragment,
    relabelled with the group, merged by day and sorted by time;
  - the list of teachers: every match of the name pattern, normalised,
    deduplicated and sorted.
- **The facade** (`hmtpk.go`) rejects the names `""` and `"0"` and the pages
  below 1. Every other call it routes to the group or teacher controller.

## How the model is built

- Parsed HTML is a value: `GroupParse.Page` holds tables of rows of cells,
  links and page text.
- The college site is `Group.Site`, a map from address to page. An address
  it lacks stands for a transport failure.
- Redis is the `Cache.Store` class, a map from key to typed value with TTL.
  `Undecodable` stands for a value that JSON cannot read back.
- `utils.RedisIsNil(c.r)` is the boolean `cacheOn`, read exactly as the
  guards read it. Every read and every write is done only when it is true.
- `ClearCache` flushes only when it is **false**.
  `Group.ScheduleServedAfterClear` shows what follows: with the cache in use,
  a stored group week survives a clear and is served unchanged even after
  the site has changed.
- Each group controller counts the requests it sends (`fetches`), so every
  contract says when the site was asked.

### Loops become methods proved against functions

Each loop of the source is a method with loop invariants, `ensures`-tied to
a function:

- the row scan: `ParseRows` against `Extract`, kept in step through
  `Model.Mirrors` (the `scheduleMap`/`scheduleOrder` pair);
- the link filter: `ParseOptions`;
- the teacher aggregation: `Synthesize` against `Merge(Picks(…))` with
  each day sorted;
- the name loop: `CollectNames` against `ResultNames`;
- the option build: `BuildOptions`.

### Regular expressions

- The name pattern `[А-Я][а-яё]+\s+[А-Я]\.\s*[А-Я]\.` is matched by hand in
  `TeacherNames`.
  - `MatchLen` is proved sound and complete against `NameShape`.
  - `FindAll.Starts` is the leftmost, non-overlapping scan. It is proved to
    return ordered, disjoint matches and to miss none.
- The date pattern appears in `GroupParse.SearchUpdate`.
- RE2's `\s` is `[\t\n\f\r ]`, `\d` is ASCII digits, `[А-Я]` is
  U+0410–U+042F and `[а-яё]` is U+0430–U+044F plus U+0451.
- `strings.Fields` and `TrimSpace` split on `unicode.IsSpace`.
- Go's `<` on strings compares UTF-8 bytes, which orders code points the
  same way; `Order.Less` is lexicographic order on `seq<char>`.

### The teacher controller's contracts are relations

A teacher call fetches the group list and then every group in turn; each
call sees the store the previous one left (`Teacher.FanOut`). Two things in
the source are not deterministic:

- `sort.Slice` is not stable;
- Go map iteration order is random.

So the teacher contracts are relations (`ScheduleOutcome`,
`OptionsOutcome`). `OptionsUnique` and `OptionsDetermined` then prove that
the teacher list is still uniquely determined.

## Model

| member | source | states |
|---|---|---|
| GroupFormat.FormatTime | schedule/group/group.go:36-43 | no "-" survives; the result is empty exactly when the input is |
| GroupFormat.FormatTimeFields | schedule/group/group.go:36-43 | for every input, with hyphens read as spaces: two or more fields give field 0 + "\n" + field 1, whose own fields are exactly those two, later ones dropped; fewer fields give the hyphen-free text unchanged |
| GroupFormat.FormatTimeRange | schedule/group/group.go:36-43 | "a-b" with words a and b becomes exactly a + "\n" + b |
| GroupFormat.FormatName | schedule/group/group.go:45-48 | the result has no leading, trailing or repeated white space and only plain spaces; every "." is last or followed by one space and a non-space |
| GroupFormat.FormatNameIdempotent | schedule/group/group.go:45-48 | formatting a formatted name changes nothing |
| GroupFormat.FormatNameFormatted | schedule/group/group.go:45-48 | formatName output is collapsed and every "." in it is last or followed by a space: the shape the teacher view relies on |
| GroupFormat.CleanText | schedule/group/group.go:58-59 | the cleaned text is collapsed (NBSP turned to space, fields joined, trimmed) |
| GroupFormat.CleanTextFixed | schedule/group/group.go:58-59 | cleaning an already collapsed text changes nothing |
| GroupFormat.RequestUrl | schedule/group/group.go:72-79 | the URL starts with "http"; a value starting with "http" is unchanged; the value is always a suffix of the URL |
| GroupFormat.RequestUrlPrefixed | schedule/group/group.go:72-79 | a relative value starting with "/shedule_kolledzh/" becomes BaseUrl + value; any other relative value becomes BaseUrl + "/shedule_kolledzh/" + value |
| GroupFormat.RequestUrlIdempotent | schedule/group/group.go:72-79 | normalising a normalised URL changes nothing |
| GroupParse.LastMarked | schedule/group/group.go:105-109 | the index of the last table whose text contains "Дисциплины", or -1 |
| GroupParse.SelectedRows | schedule/group/group.go:103-110 | the rows of the rasp_table tables when there are any, else the rows of the last table containing "Дисциплины", else none |
| GroupParse.ScheduleRows | schedule/group/group.go:103-110 | the loop over the tables returns exactly SelectedRows |
| GroupParse.Track | schedule/group/group.go:125 | a 3-cell row starts a day exactly when its label is non-empty |
| GroupParse.RowTime | schedule/group/group.go:124-143 | a non-empty time comes only from a row of 2 or 3 cells |
| GroupParse.ReadRow | schedule/group/group.go:121-143 | the time is that of a 3-cell or 2-cell row; whenever it is non-empty, subject, teacher and room are those the row's info cell (its last cell) gives |
| GroupParse.WellNumberedSnoc | schedule/group/group.go:158-167 | appending a lesson numbered after its day's earlier ones keeps every day numbered 1..n |
| GroupParse.RowLessonTeacher | schedule/group/group.go:129-141 | every emitted teacher text is formatName output |
| GroupParse.StepFacts | schedule/group/group.go:116-167 | one row files at most one lesson, under a non-empty day, with an empty group and the next number |
| GroupParse.ScanFacts | schedule/group/group.go:116-168 | after any number of rows the filed lessons are well numbered and under non-empty days |
| GroupParse.ScanHeader | schedule/group/group.go:117-119 | row 0 and rows containing "Дисциплины" change nothing |
| GroupParse.ScanRow | schedule/group/group.go:121-167 | any other row updates the current day and files its lesson only when day and time are both non-empty |
| GroupParse.ExtractFacts | schedule/group/group.go:149-173 | records have distinct non-empty dates in first-seen order and href == requestURL; lessons are numbered "1".."n" with an empty group and a formatted teacher |
| GroupParse.ParseRows | schedule/group/group.go:112-173 | the row loop with its map and order list returns exactly Extract(rows, requestURL) |
| GroupParse.ReadOff | schedule/group/group.go:170-173 | reading the map off in label order returns exactly the records the map and order list stand for |
| GroupParse.LinkOptionsMembers | schedule/group/group.go:205-211 | an option is listed iff some link with an href containing "/shedule_kolledzh/" yields it (label = trimmed text, value = href); never more options than links |
| GroupParse.ParseOptions | schedule/group/group.go:205-211 | the link loop returns exactly LinkOptions in document order |
| GroupParse.UpdateMatchRun | schedule/group/group.go:239 | the white space after the marker is the whole run (greedy \s*) |
| GroupParse.SearchUpdateFacts | schedule/group/group.go:239-246 | Ok(token) is the date token after the leftmost match of the marker; Err(UpdateDateNotFound) exactly when no position matches |
| GroupParse.SearchUpdateFound | schedule/group/group.go:239-246 | a reported date is the text of the date group of the leftmost match, and no earlier position matches |
| GroupParse.SearchUpdateMissing | schedule/group/group.go:239-246 | the search fails only when no position matches, and then with UpdateDateNotFound |
| GroupParse.NoMatchHere | schedule/group/group.go:239 | a position where the marker is not followed by a date token matches with no amount of white space |
| Model.MergeFacts | schedule/group/group.go:149-173 | the merge keeps one record per day label in first-seen order; every record has the given href and holds exactly that day's lessons in order |
| Model.MergeNonEmpty | schedule/teacher/teacher.go:59-79 | filing at least one lesson yields at least one record |
| Model.FirstSeenFacts | schedule/group/group.go:149-156 | the order list has no repetitions and holds exactly the day labels seen |
| Model.AddMirrors | schedule/group/group.go:149-167 | creating a missing record, then appending to it, keeps the map and the order list equal to the merge of the entries so far |
| Model.FileEntry | schedule/group/group.go:149-167 | the create-if-missing-then-append step keeps the map and the order list equal to the merge of the entries with the new one last |
| Model.MirrorsCount | schedule/group/group.go:158 | the lesson count read from the map is the number already filed under that day |
| Cache.KeysDistinct | schedule/teacher/teacher.go:34 | the group schedule, teacher schedule, "groups" and "teachers" keys never collide; each schedule key determines its value |
| Cache.Store.Set | schedule/group/group.go:178 | a write replaces exactly the one key |
| Cache.Store.FlushDB | schedule/group/group.go:252 | a flush empties the store |
| Group.FetchPage | schedule/group/group.go:86-101 | a request succeeds exactly for an address the site has; else Transport(url) |
| Group.ScheduleCall | schedule/group/group.go:62-183 | with the cache on, a stored decodable value is returned with no request; else the page at RequestUrl is fetched and parsed; the week is stored with TTL 10080 only when non-empty; a missing page is an error and writes nothing |
| Group.ScheduleWarm | schedule/group/group.go:175-180 | after a call that stored a week, the next call returns the same week from the store with no request |
| Group.ScheduleServedAfterClear | schedule/group/group.go:250-255 | with the cache on, ClearCache keeps the stored week, and it is served even when the site has changed |
| Group.ScheduleCacheOff | schedule/group/group.go:63-70 | with the cache off the store is neither read nor written |
| Group.OptionsCall | schedule/group/group.go:185-219 | a stored non-empty list is returned with no request; else the group page's links are filtered; stored only when non-empty |
| Group.OptionsWarm | schedule/group/group.go:212-217 | a list that was stored is served next time with no request |
| Group.OptionsEmptyNotHit | schedule/group/group.go:189 | a stored empty list is no hit: the site is asked again |
| Group.UpdateDateCall | schedule/group/group.go:222-247 | always a request; a transport error, else the date search over the page text |
| Group.Cleared | schedule/group/group.go:250-255 | the store is flushed exactly when the guard is false |
| Group.Controller.constructor | schedule/group/group.go:26-28 | a controller on the given store, guard and site, with no requests sent |
| Group.Controller.Fetch | schedule/group/group.go:91-95 | one request: the site's answer, and the counter goes up by one |
| Group.Controller.GetSchedule | schedule/group/group.go:62-183 | returns ScheduleCall's result, leaves its store and sends one request exactly when it fetched |
| Group.Controller.GetOptions | schedule/group/group.go:185-219 | returns OptionsCall's result, leaves its store and sends one request exactly when it fetched |
| Group.Controller.GetLastUpdateDate | schedule/group/group.go:222-247 | returns UpdateDateCall's result after one request |
| Group.Controller.ClearCache | schedule/group/group.go:250-255 | the store becomes Cleared(guard, store) |
| FindAll.StartsOrdered | schedule/teacher/teacher.go:128 | the leftmost scan reports match starts inside the text, each a real match, in order and not overlapping |
| FindAll.StartsCover | schedule/teacher/teacher.go:128 | every position where a match begins lies inside some reported match |
| TeacherNames.MatchLenSound | schedule/teacher/teacher.go:117 | a non-zero match length is that of a text of the pattern's shape |
| TeacherNames.MatchLenComplete | schedule/teacher/teacher.go:117 | every occurrence of the pattern's shape is found with its full greedy length |
| TeacherNames.MatchStarts | schedule/teacher/teacher.go:128 | FindAllString's matches start inside the text, are real and do not overlap |
| TeacherNames.MatchStartsCover | schedule/teacher/teacher.go:128 | no occurrence of the pattern is skipped |
| TeacherNames.FindNames | schedule/teacher/teacher.go:128 | the matched texts are exactly the slices at the reported starts |
| TeacherNames.NormalizeShape | schedule/teacher/teacher.go:130-133 | a match "Surname<ws>X.<ws>Y." normalises to "Surname X. Y." |
| TeacherNames.NamesOf | schedule/teacher/teacher.go:127 | an empty teacher text yields no names |
| TeacherNames.NamesOfShape | schedule/teacher/teacher.go:125-141 | every collected name is "Surname X. Y." built from a match in the teacher text |
| TeacherNames.NamesOfNonEmpty | schedule/teacher/teacher.go:125-141 | a text with a match yields at least one name |
| TeacherNames.FormattedShape | schedule/teacher/teacher.go:117 | in formatName output a match is already in normal form |
| TeacherNames.NameInFormatted | schedule/teacher/teacher.go:125-141 | a name taken from formatName output occurs in it verbatim |
| TeacherView.Relabel | schedule/teacher/teacher.go:67-69 | the copy gets the group label and an empty teacher; number, time, name and room are kept |
| TeacherView.PicksMembers | schedule/teacher/teacher.go:50-75 | a copy is chosen iff strings.Contains(lesson.Teacher, value) holds for its lesson in a group whose week could be had; failed groups add nothing |
| TeacherView.TeacherMergeFacts | schedule/teacher/teacher.go:57-79 | before sorting: one record per day in first-seen order, href fixed to the college page, each holding exactly the day's chosen lessons, all with an empty teacher |
| TeacherView.SortDay | schedule/teacher/teacher.go:80-85 | a day's lessons come out non-decreasing by time and a permutation of the input; date and href kept |
| TeacherView.FileDay | schedule/teacher/teacher.go:57-72 | the lesson loop files exactly the day's chosen lessons into the map and order list |
| TeacherView.FileGroup | schedule/teacher/teacher.go:56-73 | the day loop files exactly the group's chosen lessons |
| TeacherView.Synthesize | schedule/teacher/teacher.go:47-87 | the week is the merge of the chosen lessons, each day sorted by time and a permutation of the merged day |
| TeacherView.SortDays | schedule/teacher/teacher.go:77-87 | reading the days off in label order, each sorted by time, gives a sorted permutation of every merged day, in order |
| TeacherView.FragmentNotContained | schedule/teacher/teacher.go:58 | formatName output never contains a fragment with "." followed by a non-space |
| TeacherView.FragmentSelectsNothing | schedule/teacher/teacher.go:58 | over parsed pages such a fragment (e.g. "Худякова Н.В.") chooses nothing and gives an empty week |
| TeacherView.ResultsUnionMembers | schedule/teacher/teacher.go:119-141 | a name is collected iff some lesson of a group whose week could be had yields it |
| TeacherView.CollectedNameShape | schedule/teacher/teacher.go:125-141 | every collected name is "Surname X. Y." from a match in some lesson's teacher text |
| TeacherView.ListedNameSelects | schedule/teacher/teacher.go:125-141 | over parsed pages every collected name, used as the fragment, chooses the lesson it came from, so the week is not empty |
| TeacherView.AddNames | schedule/teacher/teacher.go:127-138 | the match loop adds exactly the non-empty normalised matches |
| TeacherView.AddDayNames | schedule/teacher/teacher.go:126-140 | the lesson loop adds exactly the names of the day's lessons |
| TeacherView.AddGroupNames | schedule/teacher/teacher.go:125-141 | the day loop adds exactly the names of the group's week |
| TeacherView.CollectNames | schedule/teacher/teacher.go:119-142 | the nested loops collect exactly ResultNames, skipping failed groups |
| TeacherView.ListNames | schedule/teacher/teacher.go:144-146 | one option per name with label == value, no label twice, the labels exactly the names |
| TeacherView.SortedListed | schedule/teacher/teacher.go:144-150 | sorting that list by label gives labels strictly ascending, still exactly the names |
| TeacherView.BuildOptions | schedule/teacher/teacher.go:144-150 | one option per name with label == value, labels strictly ascending, the labels are exactly the names |
| TeacherView.OptionsTail | schedule/teacher/teacher.go:148-150 | the first option has the least name; the rest is the list of the other names |
| TeacherView.OptionsUnique | schedule/teacher/teacher.go:144-150 | the list of teachers is determined by the set of names whatever the map order and the sort |
| Order.SortBy | schedule/teacher/teacher.go:148-150 | the in-place sort leaves the array non-decreasing by key and a permutation of its contents |
| Order.LessIrreflexive | schedule/teacher/teacher.go:149 | no label is less than itself |
| Order.LessAsymmetric | schedule/teacher/teacher.go:149 | Go's string `<` never holds both ways |
| Order.LessTransitive | schedule/teacher/teacher.go:149 | Go's string `<` is transitive |
| Order.LessTotal | schedule/teacher/teacher.go:149 | of two different strings one is less than the other |
| Order.SortedDistinct | schedule/teacher/teacher.go:148-150 | a sorted list with distinct keys is strictly ascending |
| Teacher.FanOut | schedule/teacher/teacher.go:50-54 | one result per group and at most one request per group |
| Teacher.FanOutSnoc | schedule/teacher/teacher.go:50-54 | one more group adds one group call, made against the store the earlier calls left |
| Teacher.FanOutKeeps | schedule/teacher/teacher.go:50-54 | asking for the groups' weeks touches no key outside "group_schedule:", so the teacher keys keep their values |
| Teacher.FanOutCacheOffStore | schedule/teacher/teacher.go:50-54 | with the cache off every group is fetched and the store is untouched |
| Teacher.FanOutCacheOffFormatted | schedule/teacher/teacher.go:50-54 | with the cache off every teacher text seen is formatName output |
| Teacher.ScheduleWarm | schedule/teacher/teacher.go:33-40 | a stored non-empty teacher week is served on the next call with no request |
| Teacher.FragmentFindsNothing | schedule/teacher/teacher.go:58 | with the cache off a fragment like "Худякова Н.В." gives an error or an empty week |
| Teacher.OptionsDetermined | schedule/teacher/teacher.go:101-160 | two calls on the same store and site give the same list, store and request count |
| Teacher.ListedTeacherHasSchedule | schedule/teacher/teacher.go:101-160 | with the cache off, every listed teacher's value finds a non-empty week |
| Teacher.OptionsWarm | schedule/teacher/teacher.go:102-109 | a stored non-empty list is served on the next call with no request |
| Teacher.Controller.constructor | schedule/teacher/teacher.go:24-30 | the teacher controller builds its own group controller on the same store, guard and site |
| Teacher.Controller.FanOutSchedules | schedule/teacher/teacher.go:50-54 | the group loop returns FanOut's results, store and request count |
| Teacher.Controller.GetSchedule | schedule/teacher/teacher.go:32-97 | a stored decodable week, else an error from the group list, else the synthesized week, stored only when non-empty |
| Teacher.Controller.GetOptions | schedule/teacher/teacher.go:101-160 | a stored non-empty list, else an error from the group list, else OptionsOf the collected names, stored only when non-empty |
| Hmtpk.AnnouncesCall | hmtpk.go:59-65 | pages below 1 are BadRequest; other pages are forwarded |
| Hmtpk.Controller.constructor | hmtpk.go:25-33 | the group and teacher controllers share one store, guard and site |
| Hmtpk.Controller.GetScheduleByGroup | hmtpk.go:51-57 | a rejected name is BadRequest with no request and no store change; else the group controller's answer |
| Hmtpk.Controller.GetScheduleByTeacher | hmtpk.go:39-41 | a rejected name is BadRequest with no request and no store change; else the teacher controller's answer |
| Hmtpk.Controller.GetGroupOptions | hmtpk.go:43-45 | the group controller's list, unvalidated |
| Hmtpk.Controller.GetTeacherOptions | hmtpk.go:47-49 | the teacher controller's list, unvalidated |
| Hmtpk.Controller.GetAnnounces | hmtpk.go:59-65 | exactly AnnouncesCall |
| Hmtpk.Controller.GetLastUpdateDate | hmtpk.go:69-71 | the group controller's date |
| Hmtpk.Controller.ClearCache | hmtpk.go:73-75 | the group controller's clear |

## Left out

- HTTP requests, context cancellation and logging: the site is a map from address to parsed page, and a failed request is the error `Transport(url)`. For the group `GetSchedule` and `GetLastUpdateDate` a failed HTML parse is that error too, as in the source. The group `GetOptions` discards its parse error (group.go:204) and goes on with a nil document; the model does not represent that path: a page it has is always parsed.
- goquery parsing and selectors: pages, tables, rows, cells, info divs and links are given already parsed, with their texts.
- `getCleanText`'s HTML tag rewriting (group.go:50-57) is not modelled; only its tail is (NBSP to space, collapse, trim).
- `url.Parse(...).String()` (group.go:81-84) is taken as the identity.
- Errors from `url.Parse` and `http.NewRequestWithContext` (group.go:81-89) are not modelled. A group value with a bad %-escape or a control character (such as "a%zz") makes the source return an error before any request is sent; the model instead counts a request and answers from the site map. Both calls on the fixed college address never fail.
- JSON encoding: the store holds typed values, and `Undecodable` stands for text `json.Unmarshal` rejects. The model treats a stored value of the other kind (a week under an options key or the reverse) as a miss. `json.Unmarshal` ignores unknown fields, so the source would decode such a value into zero-valued records and serve it as a hit (group.go:66-67, group.go:189, teacher.go:36, teacher.go:105). The program never writes such values itself, since its keys never collide (`Cache.KeysDistinct`).
- Redis TTL expiry and clocks: the TTL 10080 is recorded and never acted on. Errors from `Get`, `Set` and `FlushDB` are not modelled, and `ClearCache`'s returned error is dropped.
- `utils.RedisIsNil` is not part of this model; it is the boolean `cacheOn`.
- The unused `date` parameter of `GetSchedule` is not modelled.
- The `announce` package is not part of this model: announcements come from a function given to the facade, and `model.Announces` is a stand-in datatype.
- The `errors` package is not part of this model: `ErrorBadRequest` is the tag `BadRequest`.
- Hmtpk.Controller.GetAnnounces: returns a `Result`, so the empty `Announces` value that comes with the error for page < 1 is not represented.
- Teacher.Controller.GetSchedule: it asks for all group weeks first (`FanOutSchedules`) and then builds the week from them. The source files each lesson as it reads it. The results are the same because no group call depends on the teacher's map.
- Teacher.Controller.GetOptions: collects all group weeks before extracting names, as for `GetSchedule`.
- TeacherView.SortDay: claims only order by time and permutation, because `sort.Slice` is not stable and the order of lessons with equal times is unspecified.
- TeacherView.BuildOptions: the Go map's iteration order is an arbitrary choice from the set (`:|`). `OptionsUnique` shows the sorted result does not depend on it.
- Order.SortBy: an insertion sort stands in for `sort.Slice`'s algorithm; only the sorted-permutation result is claimed.
- GroupParse.SearchUpdateFacts: the date regex is matched by hand over `\d` = ASCII digits. RE2's backtracking is not modelled; the pattern's fixed shape makes the leftmost match unique.
- TeacherNames.MatchLen: RE2 matching is not modelled in general, only this one pattern with greedy runs; Unicode case classes are the exact ranges such as `[А-Я]`.
