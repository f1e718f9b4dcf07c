# Course watcher: a verified model

This project models the core of `classmate.py`, a chat-bot plug-in. Users watch
university course sections, each identified by its CRN. The plug-in polls the
course explorer and tells every watcher when a section opens, or when its page
disappears. The model covers three parts:

- **The watch list** (watchlist.dfy, registry.dfy). The persistent `courses`
  dictionary maps each CRN to an entry holding the follower list
  (`notify_list`), the title captured when the course was first watched, and the
  arguments used to re-fetch it. `_get_watching_courses`,
  `list_watching_courses` and `watch_course` are methods of the class
  `CourseStore`. Each method is proved against a value-level definition
  (`Listing`, `ListMessage`, `WatchStep`) on an insertion-ordered dictionary
  (`Dict`: the keys in insertion order, plus a map). The properties are lemmas
  about those definitions: toggle-off, the capacity limit, rejection of open
  sections, the watch-twice round trip, and the invariants. The invariants are:
  every follower list is non-empty, no list repeats a user, and no user exceeds
  the limit.
- **The request logic of `_get_data`** (request.dfy, text.dfy). The department
  is upper-cased. The course number and CRN are validated as decimal numbers
  and re-rendered without leading zeros. The URL is assembled, and the HTTP
  status is classified. The network is a parameter (a function from URL to
  status and body), and so is the XML parser (a function from body to the
  parsed section).
- **One pass of the polling loop and `_notify_users`** (poller.dfy,
  notifier.dfy). `PlanCycle` visits every course. It decides from an abstract
  fetch outcome, builds the notification, records the sends, and collects the
  CRNs to remove. The store is not changed during the visit. `PollCycle` then
  deletes the collected CRNs. Notification is modelled as the sequence of
  `(user, text)` sends it performs.

On these points the model follows what the code does:

- Followers are an ordered list (`notify_list`), not a set.
- A parse failure is an ordinary `BotException`, which the poller retries like
  any other error.
- Removing a course deletes a key that must be present (`del`). It is not an
  idempotent remove.
- The CRN is only validated when a course number is also given: the `if crn:`
  check sits inside `if course_number:`. With an empty course number, the CRN
  goes into the URL as it was typed.

## Model

| member | source | states |
|---|---|---|
| Text.ContainsIffOccurrence | classmate.py:59 | Python's `sub in s` (as `Contains`) holds exactly when `sub` occurs at some position of `s` |
| Text.UpperAt | classmate.py:122 | `department.upper()` works per character, leaves no lower-case ASCII letter and changes nothing else |
| Text.UpperIdempotent | classmate.py:122 | upper-casing an already upper-cased department changes nothing |
| Text.RenderParses | classmate.py:126 | `str(n)` is canonical decimal text (no leading zero) that parses back to `n` |
| Text.NormalizedProperties | classmate.py:126-133 | `str(int(s))` keeps the number, gives canonical text, and is idempotent |
| Request.Normalize | classmate.py:121-135 | fails exactly on a non-numeric course number ("Course number is not a number.") or, with a course number, a non-numeric CRN ("CRN is not a number."); otherwise the department is upper-cased, the numbers are canonical with their values kept, `?mode=detail` is set iff a course number is given, and a CRN without course number is passed through unchanged |
| Request.DetailOnlyWithNumber | classmate.py:123-139 | the URL ends in `?mode=detail` when a course number is given and in `.xml` otherwise |
| Request.Url | classmate.py:136-139 | the URL starts with the configured term and the upper-cased department, followed by `/number` and `/crn` for the given parts, `.xml` and the detail flag |
| Request.UrlRespectsValues | classmate.py:122-139 | when a course number and a CRN are both given, arguments with the same upper-cased department and the same numeric values give the same query, so `007` and `7` fetch the same page |
| Request.UrlIdentifiesQuery | classmate.py:122-139 | for one department, valid arguments that fetch the same URL normalise to the same query: the URL loses nothing of the request |
| Request.Interpret | classmate.py:141-149 | status 200 with a body the parser accepts returns the parsed section, and nothing else succeeds; 200 with a body it rejects gives "The XML could not be parsed."; 404 gives "Course not found." with extra 404; any other status gives "Something bad happened." with that status |
| Request.GetData | classmate.py:121-149 | no argument, or more than three, is a `TypeError`; invalid arguments give `Normalize`'s error; valid ones give `Interpret` of the answer to their URL, so a result is returned exactly when that URL answers 200 with a body that parses to it |
| Request.ValidationBeforeFetch | classmate.py:123-141 | invalid arguments fail before any request: the result does not depend on the network |
| Request.NotFoundExactly | classmate.py:141-145 | the error carries 404 as its first extra argument exactly when the request was sent and answered 404; other non-200 statuses carry their own code |
| Notifier.NotifyUsers | classmate.py:230-238 | the nested loop produces exactly the trace `NotifyTrace`: per follower in list order, the message, then five `:warning:` sends when urgent |
| Notifier.NotifyTraceAt | classmate.py:232-237 | the trace has one slot per follower (six when urgent); follower `i`'s first slot holds the message, and the other slots hold the warning, sent to the same follower |
| Notifier.NotifyTraceSends | classmate.py:230-238 | nothing else is sent: every send goes to a listed follower and is the message or, when urgent, the warning |
| WatchList.ListingCount | classmate.py:35-43 | the listing has one line per course the user follows, so its length is the count compared with the limit |
| WatchList.ListMessageNotWatching | classmate.py:46-52 | "You are not watching any courses right now." is shown exactly when the user follows no course |
| WatchList.DeleteKeepsWellFormed | classmate.py:68 | deleting an entry keeps the dictionary well formed and removes only that course from every user's set |
| WatchList.DeleteKeepsLimit | classmate.py:68 | deleting an entry never raises a user's count, so the limit still holds |
| WatchList.RemoveFirstNoDuplicates | classmate.py:66 | `notify_list.remove(user)` on a list without repeats removes that user and keeps every other follower |
| WatchList.WatchStep | classmate.py:55-86 | an error leaves the dictionary unchanged (every raise precedes the first write); success needs a closed section; no entry other than the fetched CRN's is added, removed or changed |
| WatchList.WatchRejectsUnlessClosed | classmate.py:57-60 | a failed fetch, a missing status or a status containing "Open" leaves the dictionary unchanged; the fetch error is passed on, a missing status raises `AttributeError`, and an open section gives "CRN is currently open.", even for a current follower |
| WatchList.WatchAdds | classmate.py:70-86 | a closed course the user does not follow, while under the limit: "Course '…' added to the watch list.", the user is appended to the existing entry or a new entry `[user]`/title/args is created, other entries are unchanged, and the count rises by one to at most the limit |
| WatchList.WatchTogglesOff | classmate.py:64-69 | a follower who watches again is removed, with no capacity check; the entry is deleted iff they were its only follower, otherwise its title and arguments are kept; the reply is "Removed course from the watch list." |
| WatchList.WatchAtLimit | classmate.py:71-80 | at or above the limit, adding an existing or a new course gives "You are watching too many courses." and the dictionary is unchanged |
| WatchList.WatchKeepsWellFormed | classmate.py:64-85 | after any call, every key has one entry, every follower list is non-empty and no list repeats a user |
| WatchList.WatchKeepsLimit | classmate.py:64-85 | if nobody exceeds the limit before a call, nobody does after it, and only the caller's set of courses changes |
| WatchList.WatchTwiceRestores | classmate.py:64-86 | watching the same closed course twice, starting as a non-follower, gives back the original dictionary and the user is not following it |
| WatchList.ScenarioFill | classmate.py:76-86 | with a limit of three, three distinct closed courses are each added |
| WatchList.ScenarioSwap | classmate.py:64-86 | at the limit, a fourth course is refused without change; leaving one course frees a place, and the fourth is then added |
| Registry.CourseStore.constructor | classmate.py:61-62 | a fresh store is the empty dictionary and satisfies the invariant |
| Registry.CourseStore.WatchingCourses | classmate.py:35-43 | the loop returns the labels `title (crn)` of the courses the user follows, in dictionary order, one per followed course |
| Registry.CourseStore.ListWatchingCourses | classmate.py:46-52 | the reply is the header and the listing, or the "not watching" text exactly when the user follows nothing |
| Registry.CourseStore.RemoveCourse | classmate.py:310-311 | `del` removes the key and its entry, keeps the other keys in order, and keeps the store's invariant |
| Registry.CourseStore.Watch | classmate.py:55-86 | the reply and the new dictionary are those of `WatchStep`, and the invariant (well formed, within the limit) is preserved |
| Poller.Classify | classmate.py:268-273 | a failure whose first extra argument is 404 is "not found"; any other failure is an ordinary error; a success yields the section's status and notes |
| Poller.ClassifyGetData | classmate.py:141-143 | the poller sees "not found" exactly when the course's request was sent and answered 404 |
| Poller.Decide | classmate.py:268-307 | a course is retired exactly when the outcome is terminal (not found, or status contains "Open"); the notification is urgent exactly for the open case |
| Poller.MissingStatusKeeps | classmate.py:285-291 | a page without enrollment status counts as status `''` and the course stays watched |
| Poller.OpenMessageText | classmate.py:291-307 | the open message is "title (crn) is now open" plus " (No listed restrictions)", or, when the status contains "Restricted", " (Restriction: X)" with X the section notes, else the section text, else "None provided." |
| Poller.KeptCourseSilent | classmate.py:268-290 | a course with an ordinary fetch error, or one that is not open, sends nothing and is not collected |
| Poller.PlannedMembers | classmate.py:266-292 | `crns_to_remove` lists, without repeats, exactly the visited courses with a terminal outcome |
| Poller.PlannedIsRetired | classmate.py:266-311 | the collected CRNs are exactly the courses the pass retires |
| Poller.CycleKeepsValid | classmate.py:310-311 | after the pass the dictionary is well formed, each user's set loses exactly the retired courses, and the limit still holds |
| Poller.CycleRemovesExactly | classmate.py:266-311 | a course leaves the dictionary iff its outcome is terminal; a kept course's entry, followers included, is unchanged |
| Poller.CycleNotifiesRetired | classmate.py:276-282 | every follower of a retired course receives that course's notification |
| Poller.CycleTraceSound | classmate.py:267-307 | every send of the pass goes to a follower of a course the pass retires |
| Poller.PlanCycle | classmate.py:264-308 | visiting every course without changing the store yields exactly the collected CRNs `Planned` and the sends `CycleTrace` |
| Poller.RemovalStep | classmate.py:310-311 | each collected CRN is still present when its turn comes, so every `del` succeeds |
| Poller.RemovalDone | classmate.py:310-311 | deleting all collected CRNs gives exactly the dictionary without the retired courses, still valid |
| Poller.PollCycle | classmate.py:264-311 | a whole pass: removals are applied only after every course is visited; the store ends as `AfterCycle` and the sends are `CycleTrace` |

## Left out

- The chat glue is not modelled: `get_commands`, the `get_response` dispatch, `get_course_description`, `get_crn_info` and `list_search`. This includes `list_search`'s rule on the argument count. These functions only format XML trees for display.
- `_get_course_title`, `_get_section_details` and all `ElementTree` navigation are replaced by the `Section` record. A parser parameter produces that record, with the id, the title and the optional status, notes and text fields.
- The network call `utilities.get_url` is a parameter from URL to response. Member lookup (`data.get_member`) and `bot.send_message` become the send trace. A send never fails in the model.
- Request.GetData: the network always answers with a status and a body. An exception raised by `utilities.get_url` itself (a refused connection, a timeout) is not modelled; the poller would see it as `OtherError`.
- The `asyncio.sleep` pauses (1 s, 30 s, 5 minutes) and the endless `while True` are not modelled. One pass is modelled, and the pass's fetch results are a function of each course's stored arguments.
- The jshbot store (`data.get`) is the `CourseStore` object. `configurations.get(..., 'course_limit')` is the constant `limit`, so a limit changed at run time is not modelled.
- The one-time rewrite of the global `course_url_template` becomes the `year` and `semester` parameters of `Url`.
- Concurrency is not modelled. Each operation runs to completion, so a `watch_course` that runs between the poller's awaits is outside the model.
- Persistence across restarts is not modelled, because the code shown has none.
- Request.Normalize: accepts as a number only a non-empty string of ASCII digits. Python's `int()` also accepts surrounding whitespace, a sign, underscores and non-ASCII digits, so `"-5"` or `" 7"` are errors in the model.
- Text.UpperAt: only upper-cases ASCII `a`–`z`. Python's `str.upper` also maps other letters.
- Poller.Classify: treats every failure other than a 404 `BotException` as an ordinary, retried error. In the code, two other cases make the `except` handler itself raise and end the loop: an exception that is not a `BotException` (it has no `error_other`), and a `BotException` with no extra argument. Neither can come from stored arguments, which passed validation when the course was watched. An exception raised by the network call itself could reach the same `e.error_other` access, and its type is outside the code shown.
- The `Section` record models each optional field as either present with text or absent. In the code, an element without text has `.text` equal to `None`. The restriction would then read "None", and a `None` status would make `'Open' in status` raise.
- The `Section` record assumes the section's `id` attribute is present. In the code, `course_data.get('id')` could return `None` and be stored under that key.
