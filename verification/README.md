# lapelle — a Dafny model of the schedule aggregation engine

lapelle is a Discord bot for the students of a school whose timetable and
roll calls live on a web portal. Users register their portal credentials (a
signed token) and join *groups* (classes). To answer "what are my courses
today" or "is the roll call open", the bot scrapes the portal in a headless
browser. Scraping is slow, so the service does three things to avoid it:

- it caches each group's slice of the day and of the week;
- it merges the courses of several groups, removing duplicates;
- for groups the asking user is not verified in, it sends a *delegate*
  (representative): the verified member whose own portal shows the most of
  the requested groups.

This project models that core in Dafny 4.11 and proves properties of it.

- **Service.** The service in `app/src/services/devinci.ts` is modelled
  over explicit inputs. These are the group table with its verified
  members, the cache maps, and what a portal session of each user yields.
  Covered:
  - the cache slicers;
  - the today and week merges;
  - the delegate loops of `getGroupsTodayCourses` and
    `getGroupsWeekCourses`;
  - the control flow of `getUserTodayCourses`;
  - the current-course and next-course choice;
  - the presence cache.
- **Portal session (`Portail`).** Covered:
  - construction from the token or from explicit credentials;
  - `use` with its home-page load, the two-step SSO login and
    `keepOpen`;
  - the presence-page decision table of `getPresence`;
  - the cell parsing of `getPresenceData` and `getCourseData`, including
    the `\s*\[.*?\]$` subject clean-up and the comma lists.
- **Scraper primitives** (`find`, `get`, `getAll`, `input`, `navigate`):
  their branches, fixed timeouts and which cases resolve, reject or never
  settle.
- **Shared browser (`browser.ts`).** A class whose queue of tickets is
  drained first in, first out. `close({ force })` rejects the pending
  promises with `BrowserShutdown`.
- **`groups` command.** The splitting, trimming and deduplication of the
  names typed into `join`, and the database effects of `join`, `sync` and
  `leave`. The database is a class holding the group table and the
  membership table.
- **Legacy bot.** `getLapelle` in `src/utils/lapelle.ts`, and the announcer
  loop of `src/index.ts`. The announcer announces each open roll call once
  between two daily resets.
- **Utilities.** `getDay`, `getMonth`, `getDateFromString`, `PascalCase`
  and the JavaScript string built-ins they rely on: `split`, `join`,
  `trim`, `\s`, `Number`.

Modules follow the source files:

| file | models |
|---|---|
| `wrappers.dfy` | `Option`, `Result`, `Distinct` |
| `errors.dfy` | the error classes (`DiscordError` and the others) |
| `users.dfy` | users and tokens |
| `strings.dfy` | JavaScript string built-ins |
| `courses.dfy` | `Course`, `Week`, the stable sort by start time |
| `merge.dfy` | the merges and slicers of `devinci.ts` |
| `devinci.dfy` | the rest of `devinci.ts` |
| `portail.dfy` | `portail.ts` |
| `scraper.dfy` | `scraper.ts` |
| `browser.dfy` | `browser.ts` |
| `datetime.dfy` | `datetime.ts` |
| `text.dfy` | `text.ts` |
| `groups.dfy` | `groups.command.ts` |
| `lapelle.dfy` | `src/utils/lapelle.ts` |
| `announcer.dfy` | `src/index.ts` |

Where the code does something its comments or its name do not promise, the
model follows the code and the contract says so. Examples:

- `getPresence` rejects when `#body_presence` is missing, because `get` is
  called without `safe`.
- A forced `close` leaves its entries queued.
- The today delegate loop throws on a group without members, where the
  week loop skips it.

Times are minutes since midnight (`Course.beginning`, `Course.end`). A
course whose times do not parse is `None`, where the source would build an
Invalid Date.

## Model

| member | source | states |
|---|---|---|
| Strings.Split | app/src/core/utils/text.ts:2 | `split` on one character yields at least one part, no part holds the separator, and joining the parts gives the string back |
| Strings.SplitJoin | app/src/core/utils/text.ts:2-5 | splitting a join of separator-free parts gives back the parts (split inverts join) |
| Strings.Trim | app/src/services/portail.ts:248 | `trim` returns the inner slice of the string: no white space at either end of the result, only white space cut off, unchanged when there is none |
| Strings.TrimIdempotent | app/src/services/portail.ts:248 | trimming twice equals trimming once |
| Strings.RemoveSpaces | app/src/services/portail.ts:244 | `replace(/\s+/g, "")` leaves no white space, never lengthens, and is the identity on space-free text |
| Strings.RemoveSpacesOfTrim | app/src/services/portail.ts:244 | trimming before removing every white-space character changes nothing |
| Strings.JsNumber | app/src/core/utils/datetime.ts:2 | `Number(s)` is NaN exactly when the trimmed text is not all digits, and is the decimal value of a string of digits |
| Courses.Insert | app/src/services/devinci.ts:51-53 | one insertion step of the sort adds exactly the course (multiset) and grows the list by one |
| Courses.InsertSorted | app/src/services/devinci.ts:51-53 | inserting into a list sorted by start keeps it sorted |
| Courses.SortByStart | app/src/services/devinci.ts:51-53 | `sort` by beginning returns a sorted permutation of its input |
| Courses.InsertLast | app/src/services/devinci.ts:51-53 | a course starting no earlier than all others goes last (stability) |
| Courses.SortSorted | app/src/services/devinci.ts:51-53 | sorting an already sorted list is the identity, so sorting is idempotent |
| Courses.SameIdsOfPermutation | app/src/services/devinci.ts:51-53 | sorting keeps the set of course identifiers |
| Merge.Fresh | app/src/services/devinci.ts:47 | the filter keeps exactly the courses whose `_id` is not yet merged |
| Merge.FreshIds | app/src/services/devinci.ts:47 | the kept identifiers are the list's identifiers minus those already merged |
| Merge.MergeTodayCourses | app/src/services/devinci.ts:41-55 | the loop skips undefined lists, appends unseen courses and returns them sorted by start: a sorted permutation of the deduplicated concatenation |
| Merge.KeptIds | app/src/services/devinci.ts:41-55 | no identifier is lost: the merge carries exactly the identifiers of the defined lists |
| Merge.KeptFirstSeen | app/src/services/devinci.ts:44-49 | every merged course comes from a defined list none of whose predecessors carries its identifier (the first that does) |
| Merge.KeptComplete | app/src/services/devinci.ts:44-49 | a course whose identifier no earlier list carries is kept |
| Merge.FreshDistinct | app/src/services/devinci.ts:47 | filtering a list without repeated identifiers keeps it without repeats |
| Merge.KeptDistinct | app/src/services/devinci.ts:41-55 | when no single list repeats an identifier, the merge repeats none |
| Merge.FreshAllSeen | app/src/services/devinci.ts:47 | a list whose identifiers are all merged contributes nothing |
| Merge.MergeSelf | app/src/services/devinci.ts:41-55 | merging a list with itself gives that list back, and a sorted list comes out unchanged (idempotence) |
| Merge.KeptSkipsUndefined | app/src/services/devinci.ts:45 | an `undefined` entry anywhere in the argument changes nothing |
| Merge.MergeWeekShape | app/src/services/devinci.ts:74-102 | `mergeWeekCourses` throws on an empty argument; it gives `undefined` when every week is undefined; otherwise it succeeds exactly when no later defined week has fewer days than the first, and the result keeps the first week's start, end and day dates |
| Merge.FoldShape | app/src/services/devinci.ts:77-100 | the `reduce` gives `undefined` when no week is defined, fails exactly when a later defined week has fewer days than the first, and keeps the first week's dates |
| Merge.MergeWeekDayIsTodayMerge | app/src/services/devinci.ts:84-96 | day i of a merged week holds the same courses (as a multiset) as the today-merge of day i of every week |
| Merge.KeptAllUndefined | app/src/services/devinci.ts:45 | merging only undefined lists gives nothing |
| Merge.FoldNoneUndefined | app/src/services/devinci.ts:77-100 | the fold ends `undefined` only when every week is undefined |
| Merge.FoldDay | app/src/services/devinci.ts:84-96 | the fold's day i is, as a multiset, the today-merge of the weeks' day i |
| Merge.FoldDayStep | app/src/services/devinci.ts:84-96 | one reducer call extends day i as one today-merge step |
| Merge.MergeWeekSorted | app/src/services/devinci.ts:91-93 | once two weeks are merged every day is sorted by start |
| Merge.FoldSorted | app/src/services/devinci.ts:91-93 | the fold's days are sorted once two defined weeks were merged |
| Merge.CoursesOfGroup | app/src/services/devinci.ts:36 | the slice keeps exactly the courses naming the group |
| Merge.SliceSorted | app/src/services/devinci.ts:32-39 | the slice of a sorted day is sorted |
| Merge.SliceIdempotent | app/src/services/devinci.ts:32-39 | slicing a slice for the same group changes nothing |
| Merge.WeekOfGroup | app/src/services/devinci.ts:57-72 | the stored week keeps the dates and days and cuts each day down to the group's courses |
| Devinci.Cache.constructor | app/src/core/utils/cache.ts:3-10 | the three caches start empty |
| Devinci.CacheGroupsTodayCourses | app/src/services/devinci.ts:32-39 | every listed group gets its slice; other entries and the other caches are untouched |
| Devinci.CacheGroupsWeekCourses | app/src/services/devinci.ts:57-72 | every listed group gets its week; other entries and the other caches are untouched |
| Devinci.SelectToday | app/src/services/devinci.ts:354-365 | the today query returns no more rows than the table |
| Devinci.SelectTodayGroups | app/src/services/devinci.ts:354-365 | the today query selects exactly the listed, verified groups |
| Devinci.SelectWeek | app/src/services/devinci.ts:439-450 | the week query returns no more rows than the table |
| Devinci.SelectWeekGroups | app/src/services/devinci.ts:439-450 | the week query selects exactly the listed groups, verified or not |
| Devinci.Cover | app/src/services/devinci.ts:378-380 | `syncUserGroups` is no longer than the selected groups; its elements are given by CoverMembers and its order by CoverAppend |
| Devinci.CoverMembers | app/src/services/devinci.ts:378-380 | `syncUserGroups` holds exactly the selected groups the user is a member of |
| Devinci.CoverAppend | app/src/services/devinci.ts:378-380 | the filter keeps the order of the selected groups: it distributes over concatenation, and keeps a single group exactly when the user is a member |
| Devinci.VerifiedGroups | app/src/services/devinci.ts:466-468 | the week delegate counts no more groups than were selected; its elements are given by VerifiedGroupsOf and its order by VerifiedGroupsAppend |
| Devinci.VerifiedGroupsOf | app/src/services/devinci.ts:466-468 | the week delegate counts exactly the verified selected groups |
| Devinci.VerifiedGroupsAppend | app/src/services/devinci.ts:466-468 | the filter keeps the order of the selected groups: it distributes over concatenation, and keeps a single group exactly when it is verified |
| Devinci.PickUpTo | app/src/services/devinci.ts:373-396 | before any member is counted the choice is the first member with no groups; after n members it is one of those n, carrying exactly that member's groups |
| Devinci.PickUpToBest | app/src/services/devinci.ts:382-388 | the representative covers at least as many groups as any member, and strictly more than every member before it (first maximum wins) |
| Devinci.PickCoversOwnGroup | app/src/services/devinci.ts:373-396 | the representative of a group's members belongs to that group |
| Devinci.NamesOf | app/src/services/devinci.ts:422 | the processed names are exactly the names of the given groups |
| Devinci.Unprocessed | app/src/services/devinci.ts:429-431 | `unprocessed` is no longer than the requested names, and is all of them when nothing was processed; its elements are given by UnprocessedNames and its order by UnprocessedAppend |
| Devinci.UnprocessedNames | app/src/services/devinci.ts:429-431 | a name is reported unprocessed exactly when requested and not processed |
| Devinci.UnprocessedAppend | app/src/services/devinci.ts:429-431 | `groupNames.filter` keeps the order and the repetitions of the requested names: it distributes over concatenation, and keeps a single name exactly when it was not processed |
| Devinci.RunSettled | app/src/services/devinci.ts:372-427 | after a `break` or a throw, later groups change nothing |
| Devinci.RunKeeps | app/src/services/devinci.ts:372-427 | a property every loop turn preserves holds after the loop |
| Devinci.RunFixed | app/src/services/devinci.ts:372-427 | a loop whose every turn is a `continue` ends in its start state |
| Devinci.TodayRunNext | app/src/services/devinci.ts:372-427 | a running today loop's next turn builds a session for the group's representative and scrapes with it |
| Devinci.TodayRunSettled | app/src/services/devinci.ts:413-426 | after the today loop stops or throws, the remaining groups change nothing |
| Devinci.TodayMemberlessGroupThrows | app/src/services/devinci.ts:391-393 | a selected group without members, reached while the loop runs, makes the whole call throw (`group.users[0]` is undefined) |
| Devinci.TodayLoop | app/src/services/devinci.ts:372-427 | the loop of `getGroupsTodayCourses` computes the today run, whose turns continue on `undefined` and on a DiscordError, rethrow other errors, and stop once every selected group is processed |
| Devinci.GetGroupsTodayCourses | app/src/services/devinci.ts:351-434 | the response of `getGroupsTodayCourses`: the gathered courses and the requested names left unprocessed |
| Devinci.TodayStepSelected | app/src/services/devinci.ts:413 | one turn marks only selected group names as processed |
| Devinci.TodayProcessedSelected | app/src/services/devinci.ts:413 | the today loop marks only selected groups as processed |
| Devinci.GroupsTodayUnprocessed | app/src/services/devinci.ts:426-433 | unprocessed names are requested names; every requested name is reported unprocessed exactly when the loop did not process it, so a name without a verified group always is |
| Devinci.TodayStepProcessesGroup | app/src/services/devinci.ts:398-413 | a successful scrape by a group's representative processes that group |
| Devinci.TodayAllDelegatesFail | app/src/services/devinci.ts:404-425 | when every scrape gives `undefined` or a DiscordError, the loop gathers nothing and processes nothing |
| Devinci.WeekRunNext | app/src/services/devinci.ts:460-522 | a running week loop's next turn is one week step on the next group |
| Devinci.WeekRunSettled | app/src/services/devinci.ts:508-521 | after the week loop stops or throws, the remaining groups change nothing |
| Devinci.WeekLoop | app/src/services/devinci.ts:460-522 | the loop of `getGroupsWeekCourses` computes the week run, whose turns skip memberless or processed groups and merge scraped weeks |
| Devinci.GetGroupsWeekCourses | app/src/services/devinci.ts:436-526 | the response of `getGroupsWeekCourses`: the merged week and the requested names left unprocessed |
| Devinci.WeekStepVerified | app/src/services/devinci.ts:466-505 | one week turn marks only verified selected groups as processed |
| Devinci.WeekProcessedVerified | app/src/services/devinci.ts:466-505 | the week loop processes only verified groups |
| Devinci.GroupsWeekUnverifiedUnprocessed | app/src/services/devinci.ts:519-525 | unprocessed names are requested names; every requested name is reported unprocessed exactly when the week loop did not process it, so a name without a verified group always is |
| Devinci.WeekMemberlessSkipped | app/src/services/devinci.ts:461 | groups without members are skipped: with only such groups the loop changes nothing |
| Devinci.FromCache | app/src/services/devinci.ts:138-148 | the cache `reduce` yields at most one name per membership and sorted data |
| Devinci.CachedNames | app/src/services/devinci.ts:138-148 | the cached-name list is no longer than the memberships read |
| Devinci.CachedData | app/src/services/devinci.ts:138-148 | the merged cached data is sorted by start |
| Devinci.CachedNamesOf | app/src/services/devinci.ts:138-148 | `cached` holds exactly the names of verified groups that have a cache entry |
| Devinci.NoSync | app/src/services/devinci.ts:163-172 | the delegate list is no longer than the memberships |
| Devinci.NoSyncNames | app/src/services/devinci.ts:163-172 | delegates serve exactly the unverified, uncached memberships, and none when there are none |
| Devinci.ToCache | app/src/services/devinci.ts:188-196 | the re-cached names are no more than the user's memberships; its elements are given by ToCacheNames and its order by ToCacheAppend |
| Devinci.ToCacheNames | app/src/services/devinci.ts:188-196 | a group of the user is re-cached exactly when it is not reported unprocessed |
| Devinci.ToCacheAppend | app/src/services/devinci.ts:188-196 | the re-cached names follow the order of the memberships: the filter distributes over concatenation, and keeps a single membership exactly when it is not unprocessed |
| Devinci.MergeCached | app/src/services/devinci.ts:138-148 | the loop computes the cache `reduce` |
| Devinci.ScrapeOwn | app/src/services/devinci.ts:150-161 | the user's own scrape happens only when needed, and its result is merged in |
| Devinci.ScrapeDelegates | app/src/services/devinci.ts:174-185 | the delegate path runs only for names that need it, and its courses and `meta` are merged in |
| Devinci.GetUserTodayCourses | app/src/services/devinci.ts:105-201 | `getUserTodayCourses` returns the specified response; on success each re-cached group's entry becomes its slice of the response and no other entry changes; on error the cache is unchanged |
| Devinci.UserTodayNoGroup | app/src/services/devinci.ts:117-127 | a missing user row or a user without groups gives NoGroupFound |
| Devinci.UserTodayOwnScrape | app/src/services/devinci.ts:150-161 | the user's own scrape matters only when a verified membership is uncached, and then an error it throws is the call's error |
| Devinci.UserTodayDelegates | app/src/services/devinci.ts:163-185 | when every unverified membership is of a verified group and cached, the group table and the delegates make no difference and no `unprocessed` list is returned |
| Devinci.UserTodayResult | app/src/services/devinci.ts:187-200 | a successful response is non-empty and sorted, and each group is re-cached exactly when it is not unprocessed |
| Devinci.CurrentCourse | app/src/services/devinci.ts:314-322 | the current course is the first one under way; NoCurrentCourse exactly when none is |
| Devinci.NextCourse | app/src/services/devinci.ts:337-343 | the next course is the first one starting after now; NoNextCourse exactly when none does |
| Devinci.NextCourseIsEarliest | app/src/services/devinci.ts:337-343 | on a sorted day the next course starts no later than any course still to come |
| Devinci.UserPresence | app/src/services/devinci.ts:537-600 | a cached status is returned without scraping and the cache is kept; otherwise the scraped outcome is returned and a defined status is cached, nothing else |
| BrowserPool.Settle | app/src/services/browser.ts:33-55 | a promise settles once: a later resolve or reject is ignored |
| BrowserPool.RunEntryIsolated | app/src/services/browser.ts:34-49 | a queued closure settles only its own caller, first with the shutdown error when forced |
| BrowserPool.ForceAllRejects | app/src/services/browser.ts:76-80 | a forced close rejects every still-pending queued caller with BrowserShutdown and touches no other promise |
| BrowserPool.RunForced | app/src/services/browser.ts:77-79 | the forced loop runs every queued body once, in order, and its promises settle as the shutdown specification says |
| BrowserPool.Browser.constructor | app/src/services/browser.ts:8-12 | a new pool has no instance and an empty queue, and is not processing |
| BrowserPool.Browser.Page | app/src/services/browser.ts:88-94 | `page()` throws "not defined" exactly when no instance was launched; Use, Step and Close state how it changes |
| BrowserPool.Browser.Use | app/src/services/browser.ts:21-56 | `use` relaunches when closing or disconnected; a failed launch rejects and changes nothing, the old instance included; otherwise it queues a fresh ticket, runs it at once when idle and leaves `page()` defined; FIFO order is kept |
| BrowserPool.Browser.Step | app/src/services/browser.ts:58-71 | one `process` step runs the head of the queue; an empty queue stops processing and closes; `page()` behaves as before |
| BrowserPool.Browser.Close | app/src/services/browser.ts:73-86 | a forced close runs every queued body with the shutdown error and leaves the queue in place; a plain close waits for nothing; the instance is kept, so `page()` behaves as before |
| BrowserPool.DrainInSubmissionOrder | app/src/services/browser.ts:58-71 | the k-th task drained is the k-th submitted |
| Scraper.Find | app/src/services/scraper.ts:20-38 | `find` throws without a page; otherwise it reports whether the selector appeared and calls the callback with that; a callback that throws on `true` is called again with `false` |
| Scraper.FindIgnoresTimeout | app/src/services/scraper.ts:31 | the wait is fixed at 5000 ms: the caller's timeout makes no difference |
| Scraper.Get | app/src/services/scraper.ts:40-68 | `get` rejects without a target, resolves the element when found, resolves `undefined` exactly when missing and safe, and otherwise rejects |
| Scraper.Defined | app/src/services/scraper.ts:82 | `filter(Boolean)` keeps exactly the defined handles, no more entries than it is given; its order is given by DefinedAppend |
| Scraper.DefinedAppend | app/src/services/scraper.ts:82 | the filter keeps the order `$$` returned: it distributes over concatenation, and keeps a single entry exactly when it is defined |
| Scraper.SliceEnd | app/src/services/scraper.ts:85 | `slice(0, limit)` stops at the limit, counts a negative limit from the end, and never passes the length |
| Scraper.GetAll | app/src/services/scraper.ts:70-103 | `getAll` never settles without a page, rejects when the selector does not appear, and otherwise resolves the defined handles cut to a non-zero limit: a prefix of them, with at most `limit` handles when the limit is positive |
| Scraper.Input | app/src/services/scraper.ts:105-135 | `input` rejects only without a page; it writes the value when the field appears and otherwise leaves it |
| Scraper.Wait | app/src/services/scraper.ts:163 | the navigation wait is the timeout, or 10000 ms when the timeout is missing or 0 |
| Scraper.Navigate | app/src/services/scraper.ts:137-182 | `navigate` succeeds exactly when there is a page, an action, a navigation and a validated URL; otherwise it returns false when safe and throws when not |
| Portail.Verify | app/src/core/utils/jwt.ts:8-16 | no token gives no credentials; a token gives its decoded credentials exactly when its signature checks |
| Portail.NewPortail | app/src/services/portail.ts:70-80 | the token's credentials win over the options', MissingCredentials is thrown when neither exists, a bad signature throws, and keepOpen defaults to false |
| Portail.Login | app/src/services/portail.ts:122-169 | login succeeds without a page or login form; otherwise InvalidEmail exactly when the e-mail step does not reach ADFS, and InvalidPassword exactly when the password step does not reach the home page |
| Portail.UseOutcome | app/src/services/portail.ts:97-119 | `use` yields the callback's outcome once the home page loads and login succeeds; a failed home load throws a non-Discord error, and a login error is rethrown |
| Portail.Portail.constructor | app/src/services/portail.ts:70-80 | a session starts with its settings and no open page |
| Portail.Portail.Use | app/src/services/portail.ts:97-119 | the session's `use` returns the specified outcome and leaves a page open exactly when keepOpen |
| Portail.Classify | app/src/services/portail.ts:212-234 | the status is not-started or open exactly under the alert and span conditions of the decision table |
| Portail.DangerOutranksValidate | app/src/services/portail.ts:224-231 | with a danger alert the set-presence span is never consulted |
| Portail.FindPresence | app/src/services/portail.ts:194-199 | the first row with the course's subject, start and end, or none when no row matches |
| Portail.GetPresence | app/src/services/portail.ts:191-240 | no matching row gives `undefined`; a match gives that row with the classified status; a missing `#body_presence` or a failed navigation rejects |
| Portail.PresenceTimes | app/src/services/portail.ts:243-262 | reading the time cell throws exactly when the cleaned cell has no '-' |
| Portail.PresenceTimesIgnoresSpaces | app/src/services/portail.ts:243-245 | white space anywhere in the time cell makes no difference |
| Portail.PresenceTimesOfFields | app/src/services/portail.ts:258-262 | a dash-separated pair is read with `getDateFromString` on each side |
| Portail.PresenceTimesOfClocks | app/src/services/portail.ts:258-262 | a cell written `H:M-H:M` reads back as those two times |
| Portail.TrimAll | app/src/services/portail.ts:352-355 | each part is trimmed in place |
| Portail.SplitTrim | app/src/services/portail.ts:352-355 | the comma list gives at least one trimmed item without commas |
| Portail.SplitTrimJoin | app/src/services/portail.ts:352-355 | a comma-joined list of trimmed names reads back as that list |
| Portail.FirstOpening | app/src/services/portail.ts:338 | the first '[' that opens a bracketed suffix at end of text |
| Portail.SpaceRunStart | app/src/services/portail.ts:338 | the start of the white space run before a position |
| Portail.StripSuffix | app/src/services/portail.ts:338 | the regular expression's leftmost match is removed: the result is a prefix, what is cut matches the pattern, and no earlier position matches |
| Portail.OpensShift | app/src/services/portail.ts:338 | a suffix-opening bracket of a tail is one of the whole text |
| Portail.NoShapeWithout | app/src/services/portail.ts:338 | without an opening bracket the pattern never matches |
| Portail.NoShapeBefore | app/src/services/portail.ts:338 | no match starts before the white space leading the first opening |
| Portail.CourseData | app/src/services/portail.ts:275-358 | a course exists exactly when both times parse; it carries the identifier, the cleaned subject and the trimmed comma lists |
| DateTime.GetDay | app/src/core/utils/datetime.ts:20-31 | the index counts from Monday (Sunday is 6), is in range and names that day, and is a rotation of the weekday, so distinct weekdays get distinct indices; the number is the date |
| DateTime.GetMonth | app/src/core/utils/datetime.ts:48-55 | the month index, its 1-based number and its name |
| DateTime.GetDateFromString | app/src/core/utils/datetime.ts:1-6 | text without a ':' gives no time: the minute field is missing, so the date is Invalid |
| DateTime.ClockSplit | app/src/core/utils/datetime.ts:2 | `H:M` splits into its two digit fields |
| DateTime.JsNumberOfNat | app/src/core/utils/datetime.ts:2 | `Number(String(n)) == n` |
| DateTime.GetDateFromStringOfClock | app/src/core/utils/datetime.ts:1-6 | a clock written `String(h):String(m)` reads back as those minutes |
| Text.Upper | app/src/core/utils/text.ts:4 | `toUpperCase` of one Latin-1 character: at least one character, one except for 'ß', and a space stays a space |
| Text.Capitalize | app/src/core/utils/text.ts:4 | capitalising keeps the word's tail, adds no space, and keeps the length when there is no 'ß' |
| Text.CapitalizeIdempotent | app/src/core/utils/text.ts:4 | capitalising twice equals capitalising once |
| Text.CapitalizeAll | app/src/core/utils/text.ts:3-5 | every word is capitalised in place |
| Text.PascalCaseWords | app/src/core/utils/text.ts:1-6 | the result has the same words, each capitalised |
| Text.PascalCaseShape | app/src/core/utils/text.ts:1-6 | without 'ß' the length and the spaces' positions are kept |
| Text.PascalCaseIdempotent | app/src/core/utils/text.ts:1-6 | PascalCase of PascalCase is PascalCase |
| Text.WhitespaceTrims | app/src/core/utils/text.ts:9 | the padding is three no-break spaces, all trimmed away |
| GroupCommands.SeparatorAt | app/src/core/commands/groups.command.ts:229 | the first character the pattern `,` or `\s` matches |
| GroupCommands.SplitNames | app/src/core/commands/groups.command.ts:229 | splitting on the pattern gives at least one piece, none with a separator |
| GroupCommands.SeparatorsOf | app/src/core/commands/groups.command.ts:229 | the separators of the text, in order |
| GroupCommands.SeparatorsOfConcat | app/src/core/commands/groups.command.ts:229 | separators of a concatenation are concatenated |
| GroupCommands.SeparatorsOfNone | app/src/core/commands/groups.command.ts:229 | a separator-free text has none |
| GroupCommands.SeparatorsAfterFirst | app/src/core/commands/groups.command.ts:229 | the separators are the first one followed by the rest's |
| GroupCommands.SplitNamesRebuild | app/src/core/commands/groups.command.ts:229 | the pieces and separators rebuild the input (nothing is lost) |
| GroupCommands.SplitNamesOfInterleave | app/src/core/commands/groups.command.ts:229 | splitting interleaved pieces gives back the pieces |
| GroupCommands.TrimAll | app/src/core/commands/groups.command.ts:230 | the map keeps the number of pieces |
| GroupCommands.TrimSplit | app/src/core/commands/groups.command.ts:229-230 | trimming the pieces is the identity |
| GroupCommands.NonEmpty | app/src/core/commands/groups.command.ts:231 | the filter is no longer than its input; its elements are given by NonEmptyElements and its order by NonEmptyAppend |
| GroupCommands.NonEmptyElements | app/src/core/commands/groups.command.ts:231 | it keeps exactly the non-empty names |
| GroupCommands.NonEmptyAppend | app/src/core/commands/groups.command.ts:231 | the filter keeps the order of the names: it distributes over concatenation, and keeps a single name exactly when it is not empty |
| GroupCommands.Dedup | app/src/core/commands/groups.command.ts:233 | `[...new Set(xs)]` is no longer than its input |
| GroupCommands.DedupElements | app/src/core/commands/groups.command.ts:233 | it keeps every value and repeats none |
| GroupCommands.DedupOrder | app/src/core/commands/groups.command.ts:233 | values keep first-occurrence order |
| GroupCommands.GroupNamesPieces | app/src/core/commands/groups.command.ts:227-233 | the names are the deduplicated non-empty pieces |
| GroupCommands.GroupNamesElements | app/src/core/commands/groups.command.ts:227-233 | the names are distinct and exactly the non-empty pieces |
| GroupCommands.GroupNamesWellFormed | app/src/core/commands/groups.command.ts:227-233 | no name is empty or holds a comma or white space |
| GroupCommands.GroupNamesOrder | app/src/core/commands/groups.command.ts:227-233 | names keep the order of first appearance |
| GroupCommands.UpsertOne | app/src/core/commands/groups.command.ts:235-244 | the upsert adds the name if new, keeps identifiers, touches no other row, and keeps the serial numbering well-formed |
| GroupCommands.UpsertNamesKeys | app/src/core/commands/groups.command.ts:235-244 | upserting a list adds exactly those names, keeps the other rows and every identifier, and keeps the numbering |
| GroupCommands.UpsertNamesRows | app/src/core/commands/groups.command.ts:317-333 | every upserted name holds the row its upsert promises |
| GroupCommands.Unlink | app/src/core/commands/groups.command.ts:488-499 | the delete removes exactly the user's memberships in the given groups |
| GroupCommands.KeepOnly | app/src/core/commands/groups.command.ts:400-411 | the erase delete keeps exactly the user's memberships in the given groups and everyone else's |
| GroupCommands.UnlinkKeepOnly | app/src/core/commands/groups.command.ts:400-411 | the two deletes split the user's groups into two disjoint parts |
| GroupCommands.LinkOne | app/src/core/commands/groups.command.ts:246-256 | linking one membership makes it present |
| GroupCommands.LinkIdsKeys | app/src/core/commands/groups.command.ts:381-396 | linking adds exactly the user's memberships to the ids, verified, and overwrites old ones only on conflict update |
| GroupCommands.LinkIdsGroups | app/src/core/commands/groups.command.ts:381-396 | the user's groups become the old ones plus the ids |
| GroupCommands.UpsertUnverified | app/src/core/commands/groups.command.ts:235-244 | `join` keeps existing groups as they were, and its new groups are unverified |
| GroupCommands.UpsertVerified | app/src/core/commands/groups.command.ts:322-328 | `sync` leaves every upserted group verified |
| GroupCommands.LinkedAll | app/src/core/commands/groups.command.ts:381-396 | after linking the user is a member of every id, verified when updating on conflict |
| GroupCommands.Imported | app/src/core/commands/groups.command.ts:381-416 | after import the user is a verified member of every id; erase leaves exactly those ids and keep adds them; other users are untouched |
| GroupCommands.Store.constructor | app/src/core/database/entities/groups.ts:1-24 | the tables start empty with serial 1 |
| GroupCommands.Store.UpsertAll | app/src/core/commands/groups.command.ts:235-244 | the upsert loop returns each name's identifier and updates the group table as specified |
| GroupCommands.Store.LinkAll | app/src/core/commands/groups.command.ts:246-256 | the membership inserts change only the membership table, as specified |
| GroupCommands.Store.Join | app/src/core/commands/groups.command.ts:196-295 | `join` fails on an empty insert exactly when no name was typed; otherwise it adds the new groups unverified, keeps existing rows, and adds verified memberships for the typed names only |
| GroupCommands.Store.Import | app/src/core/commands/groups.command.ts:317-416 | importing the portal's names verifies them, and leaves the user's groups as exactly those (erase) or the old ones plus those (keep); other users are untouched |
| GroupCommands.Store.Sync | app/src/core/commands/groups.command.ts:297-431 | `sync` fails with the session's construction error or the portal's error, with NoGroupToImport on `undefined` and with the empty-insert error on an empty list, changing nothing; otherwise every portal name becomes a verified group the user is verified in, exactly those (erase) or added to the old ones, and other users are untouched |
| GroupCommands.Store.Leave | app/src/core/commands/groups.command.ts:433-520 | `leave` throws NoGroupFound for a user without groups, and otherwise deletes exactly the selected memberships |
| Lapelle.Classify | src/utils/lapelle.ts:196-229 | the danger alert wins, then the success alert, then the "Valider la présence" span; otherwise closed and undetermined |
| Lapelle.TimeText | src/utils/lapelle.ts:148-150 | the time cell without any white space |
| Lapelle.Times | src/utils/lapelle.ts:166-174 | reading the times throws exactly when the cell has no '-' |
| Lapelle.RowStep | src/utils/lapelle.ts:147-254 | a row that reports is under way with a link and a panel, and carries its times, its page URL and the classified state |
| Lapelle.TimesOfRange | src/utils/lapelle.ts:166-174 | a cell `H1:M1-H2:M2` reads as the minutes of its two ends |
| Lapelle.RowStepOfTimes | src/utils/lapelle.ts:179-254 | a row is skipped exactly when not under way; under way, it is linkless exactly when it has no link |
| Lapelle.OutcomesCarry | src/utils/lapelle.ts:235-243 | every reporting row carries its course |
| Lapelle.ScanShape | src/utils/lapelle.ts:146-255 | the scan ends with a course exactly when some reporting row is preceded only by rows that are skipped or linkless; every call before the last is "no link", and a found scan's last call is that row's payload |
| Lapelle.ShiftFound | src/utils/lapelle.ts:147-255 | a passing first row does not change whether a later row reports |
| Lapelle.ScanOpenHasCourse | src/utils/lapelle.ts:235-252 | every open call carries its course |
| Lapelle.ScanNoThrow | src/utils/lapelle.ts:147-255 | without an exception the scan goes through |
| Lapelle.ScanWith | src/utils/lapelle.ts:146-255 | the row loop computes the scan specification, including `break` and exceptions |
| Lapelle.ScanTable | src/utils/lapelle.ts:146-255 | the row loop at time `now` computes the scan specification |
| Lapelle.GetLapelle | src/utils/lapelle.ts:28-279 | missing credentials return the error without a launch; otherwise the browser is closed exactly when it was opened, and the callback is called exactly then |
| Lapelle.ScanCalls | src/utils/lapelle.ts:257-271 | a check always makes at least one call |
| Lapelle.ScanCallsShape | src/utils/lapelle.ts:146-271 | all calls but the last are "no link"; the last is a course's state, "no course" or an error; open calls carry a course |
| Lapelle.ScanCallsNoCourse | src/utils/lapelle.ts:259-265 | with no exception, "no course" ends the check exactly when no row reports |
| Lapelle.TableCallsShape | src/utils/lapelle.ts:141-271 | the same shape once the browser is open; an unreadable table gives the error call alone |
| Lapelle.TableCallsNoCourse | src/utils/lapelle.ts:259-265 | with the table read and no exception, "no course" ends the check exactly when no row reports |
| Lapelle.FirstFound | src/utils/lapelle.ts:147-255 | when no row throws, a reporting row implies a first reporting row preceded only by skipped or linkless rows |
| Announcer.StripDot | src/index.ts:145-148 | one trailing '.' is removed, and nothing else |
| Announcer.StripDotOfDotted | src/index.ts:145-148 | cutting the dot off `s + "."` gives `s` |
| Announcer.SentExtends | src/index.ts:149-155 | the messages of two steps add up |
| Announcer.AnnounceExtends | src/index.ts:149-155 | the announced list only grows, at its end |
| Announcer.AnnounceDistinct | src/index.ts:149-155 | no page is announced twice |
| Announcer.AnnounceMembers | src/index.ts:149-155 | a page is in the list exactly when it was before or some open payload carried it |
| Announcer.AnnounceKnown | src/index.ts:149 | payloads whose pages are all known announce nothing |
| Announcer.AnnounceTwice | src/index.ts:149-155 | replaying the payloads announces nothing new |
| Announcer.AnnounceAtMostOne | src/index.ts:144-156 | payloads that all report a missing link but the last announce at most one page |
| Announcer.OneCheckAnnouncesAtMostOne | src/index.ts:141-160 | one presence check announces at most one page |
| Announcer.Announcer.constructor | src/index.ts:22 | the announced list starts empty |
| Announcer.Announcer.OnPayload | src/index.ts:144-156 | an open, unannounced roll call is sent and remembered; anything else changes nothing |
| Announcer.Announcer.Deliver | src/index.ts:144-156 | the callback over a check's payloads computes the announce function and sends one message per new page |
| Announcer.Announcer.Empty | src/index.ts:166-171 | the daily reset clears the list and sends nothing |

## Left out

- `getUserWeekCourses` (`devinci.ts:203-305`) is not modelled as a whole. It mirrors `getUserTodayCourses` with the week cache; its parts are modelled: `CacheGroupsWeekCourses`, `GroupsWeek` and `MergeWeekCourses`.
- `getGroupsCurrentCourse`, `getGroupsNextCourse` and `getGroupsPresence` (`devinci.ts:614-748`) are not modelled. They reuse the pieces above (`GroupsToday`, `CurrentCourse`, `NextCourse`).
- Devinci.UserPresence: the database query for the course's verified group and the choice of the member who scrapes are left out. The scrape's result is the `fetch` parameter.
- `getUserCurrentCourse` and `getUserNextCourse` are modelled only as the choice over a day's list (`CurrentCourse`, `NextCourse`). The call into `getUserTodayCourses` is not repeated.
- The DOM and puppeteer are inputs:
  - what the portal pages hold: rows, cells, alerts, links;
  - what navigations reach;
  - whether selectors appear.
- Portail: `getTodayCourses`, `getWeekCourses`, `getGroups`, `getPresences` and `initialize` are not modelled. They read those inputs; delegates and `sync` receive their outcomes.
- The database and the signed token are left out. Memberships, group tables and decoded tokens are values, and `jwt.verify` throwing is a failed decode.
- The TTL and capacity of the caches (`cache.ts`) are left out: an entry never expires.
- The clock is a parameter `now`, in minutes. Left out:
  - `new Date()`'s seconds and milliseconds;
  - day rollover;
  - `setSeconds(0, 0)`.
- Lapelle.IsCurrent compares against `now` as given.
- Invalid Date courses are left out: unparsable times give `None` and drop the course or row.
- Strings.JsNumber accepts only decimal digits after trimming. Hexadecimal, exponents, signs and decimals are not modelled.
- Text.Upper covers the Latin-1 range only. Full Unicode case mapping is not modelled.
- Async interleaving is left out:
  - `process` is modelled one step at a time (`BrowserPool.Browser.Step`);
  - `close` without `force` awaits `Promise.all` over functions, which waits for nothing;
  - the recursive `process` after a close and concurrent `use` calls are not modelled beyond the queue invariant.
- BrowserPool.Browser.Use: a queued callback is given by its outcome. The real callback's side effects are not modelled.
- The order in which `Promise.all` settles in `sync` and in `getPresences` is left out. The results are taken in array order.
- Duplicate group names returned by the portal in `sync` are imported as given.
- Discord interactions are left out: modals, buttons, collectors and their timeouts, embeds, replies and `this.update()`. The model keeps the data they carry: the typed text, the erase choice and the selected groups.
- The lapelle login flow (`lapelle.ts:53-141`) is abstracted into `Session`, which is one of three things:
  - a launch that throws;
  - a page that cannot be opened;
  - the table, or the message of an exception raised while reaching it.
- Lapelle: an exception's `${error}` text is a fixed string for the two exceptions the scan raises. Any other is the message carried by `Session`.
- Lapelle.ScanTable: the row reader is passed to `ScanWith` as a function, because the rows' cells come from `$eval`.
- `$eval` throwing on a missing cell is not modelled: a missing cell is an empty string.
- Lapelle: there is no lemma about a concrete `H:M-H:M` row at a given time as a whole. `TimesOfRange` and `RowStepOfTimes` state the two halves.
- Announcer: Discord `send` is left out. The template substitution of `{{role}}`, the guild, channel and role look-ups and the attached image are not modelled; a sent message is recorded in `sent`.
- The `setInterval` and `cron` scheduling are left out. `Deliver` is one tick and `Empty` is the 23:59 reset.
- Announcer.StripDot: its result is computed and unused, as in the source.
- Logging (`logger`, `console`) is left out.
