# BoxMagic scraper core, modelled in Dafny

This project models the logic core of the BoxMagic (Tavros) scraper and its API server, and proves
properties of that model:

- **Retry** (`retry.dfy`) is the `retry(max_attempts, delay)` decorator of `src/utils.py`. The wrapped
  function is an oracle giving the outcome of its k-th call: a value, an `Exception`, or a
  `BaseException` outside `except Exception`. A run is a `Trace`: the outcome, the
  arguments of every call, and the sleeps.
- **ClassIds** (`class_ids.dfy`) covers the class-id rules the end-to-end test-suite writes out:
  - the `^\d+-\d+$` identifier check, with Python's `$`;
  - the unanchored `(\d+-\d+)` search;
  - deriving `class_id` from `value` or from `clase_id`/`dias_clases_id`;
  - the `alumnos or []` coalescing;
  - the DD-MM-YYYY date shape;
  - the keys of class and date records.
- **Calendar** (`calendar.dfy`) covers the calendar side of `src/scraper_playwright.py`:
  - the `is_logged_in` flag that `start_browser` sets;
  - the coach-option filter of `get_available_coaches`;
  - the in-page event scan, including its time-range regex;
  - `scrape_calendar_with_details`, with its per-event failure isolation;
  - `scrape_all_coaches`.

  The browser is an oracle. A `CalendarPage` records:
  - whether the page loaded;
  - whether `select_coach` succeeded;
  - whether event elements appeared;
  - the elements the script read;
  - the element count;
  - what opening each element's modal did.
- **ApiServer** (`api_server.dfy`) covers `api_server.py`:
  - the `SCRAPING_STATUS` record and the two snapshots;
  - `run_checkin_scraper` and `run_calendar_scraper`;
  - `trigger_scrape`;
  - the `/api/checkin...`, `/api/calendar` and `/api/all-data` handlers;
  - a sequential replay of jobs and requests from start-up.
- **Optional**, **Json** and **Text** hold shared helpers:
  - `Option`;
  - a JSON value with Python truthiness, `dict.get` and `len`;
  - Python `strip` and JavaScript `trim` whitespace sets;
  - digit strings, `str(int)`, `int(str)` and `str.split`.

## Model

| member | source | states |
|---|---|---|
| Retry.RetryFrom | src/utils.py:27-35 | From any attempt on, the loop makes no more calls than the attempts left. Every call gets the caller's arguments and every sleep lasts `delay`. Past the last attempt it returns `None` without a call. |
| Retry.Retry | src/utils.py:22-37 | The decorated call passes the same arguments to every call of the wrapped function. It calls it at most `max_attempts` times (never when `max_attempts <= 0`) and sleeps `delay` each time. |
| Retry.FirstSettledFrom | src/utils.py:27-34 | From a given attempt on, the first call k that does not raise an `Exception` ends the run: its value is returned or its exception escapes. Calls from that attempt through k happen, with one sleep between each. |
| Retry.FirstSuccessReturned | src/utils.py:27-29 | When call k is the first that succeeds, its value is returned. The function was called exactly k+1 times, there were k sleeps, and no call follows the success. |
| Retry.EscapeNotRetried | src/utils.py:28-30 | A `BaseException` that is not an `Exception`, raised by call k, escapes at once even when attempts remain. The function was called k+1 times, with k sleeps. |
| Retry.AllFailFrom | src/utils.py:30-34 | From a given attempt on, when every remaining call raises, the last attempt's exception escapes. One sleep separates each pair of calls. |
| Retry.AllFailuresRaiseLast | src/utils.py:30-34 | When all `max_attempts` calls raise, the last call's exception propagates. This happens after `max_attempts` calls and `max_attempts - 1` sleeps. |
| Retry.NoAttemptsReturnsNone | src/utils.py:27-35 | With `max_attempts <= 0` the wrapped function is never called, nothing sleeps, and the result is `None`. |
| Retry.RetryCases | src/utils.py:27-35 | Every run is one of four cases, and sleeps are one fewer than calls: (1) the value of the first success, with all earlier calls raising an `Exception`; (2) an exception outside `Exception` from the last call, with all earlier calls raising an `Exception`; (3) the last exception, after `max_attempts` calls that all raised; (4) `None` exactly when `max_attempts <= 0`. |
| Retry.RunRetry | src/utils.py:25-36 | The `for`/`try`/`raise`/`sleep` loop as written produces exactly the trace of the recursive definition. |
| ClassIds.IsCompositeId | tests/test_scraper_e2e.py:94-100 | `re.match(r'^\d+-\d+$', s)` succeeds iff `s` minus at most one final newline is: non-empty digits, a hyphen, non-empty digits. |
| ClassIds.AcceptsFirstExample | tests/test_scraper_e2e.py:97 | "104996-237092" is accepted. |
| ClassIds.AcceptsSecondExample | tests/test_scraper_e2e.py:98 | "105112-237418" is accepted. |
| ClassIds.RejectedWithoutHyphen | tests/test_scraper_e2e.py:219-227 | "104996", "104996237092" and "invalid" are rejected. |
| ClassIds.RejectedWithLetters | tests/test_scraper_e2e.py:325-330 | "abc-237092" and "104996-abc" are rejected. |
| ClassIds.DigitsDashDigitsAccepted | tests/test_scraper_e2e.py:94-100 | Any two digit runs joined by a hyphen are accepted. |
| ClassIds.NoHyphenRejected | tests/test_scraper_e2e.py:219-227 | Any string without a hyphen (and without a final newline) is rejected. |
| ClassIds.NonDigitAroundHyphenRejected | tests/test_scraper_e2e.py:325-330 | A string is rejected when its only hyphen has a part that is not all digits on either side. |
| ClassIds.TrailingNewlineAccepted | tests/test_scraper_e2e.py:94-100 | Python's `$` also matches before one final newline, so a valid id followed by "\n" passes the check too. |
| ClassIds.SearchFrom | tests/test_scraper_e2e.py:312-323 | The search returns the leftmost position where `\d+-\d+` matches, with both digit runs greedy. It returns None only when no position matches. |
| ClassIds.SearchFindsOccurrence | tests/test_scraper_e2e.py:317-323 | When a string contains an identifier anywhere, the search finds a match no later than that occurrence. What it returns is itself an identifier. |
| ClassIds.SearchReturnsWholeId | tests/test_scraper_e2e.py:312-323 | The unanchored search applied to a valid identifier returns all of it. |
| ClassIds.SearchExample | tests/test_scraper_e2e.py:312-315 | The search on "104996-237092" spans the whole string. |
| ClassIds.DeriveClassId | tests/test_scraper_e2e.py:205-217 | The id is the stripped `value` when that is non-empty. Otherwise, when both `clase_id` and `dias_clases_id` are present, it is `"{clase_id}-{dias_clases_id}"`. It is empty exactly when neither applies. |
| ClassIds.ParseCompositeId | tests/test_scraper_e2e.py:325-330 | It gives back the two integers of an identifier. It succeeds exactly on the strings the check accepts. |
| ClassIds.FormatParseRoundTrip | tests/test_scraper_e2e.py:205-211 | Two non-negative integer ids joined by a hyphen always pass the check, and they parse back to the same pair. |
| ClassIds.DerivedIdFromIntegers | tests/test_scraper_e2e.py:205-211 | A record with an empty `value` and integer ids >= 0 derives a valid identifier that parses back to those ids. |
| ClassIds.DerivedIdFromDigitText | tests/test_scraper_e2e.py:205-211 | Ids given as digit strings without leading zeros derive the same identifier as the numbers they spell. |
| ClassIds.NegativeIdRejected | tests/test_scraper_e2e.py:209-210 | With a negative `clase_id` the derived id starts with '-', so the check rejects it. |
| ClassIds.NullIdRejected | tests/test_scraper_e2e.py:209-210 | With a null `clase_id` the derived id starts with "None", so the check rejects it. |
| ClassIds.DeriveFromRawIdsExample | tests/test_scraper_e2e.py:205-211 | The raw ids 104996 and 237092 derive "104996-237092". |
| ClassIds.DeriveFromValueExample | tests/test_scraper_e2e.py:213-217 | The parsed `value` "104996-237092" is kept as the id. |
| ClassIds.OrEmptyList | tests/test_scraper_e2e.py:266-277 | `data.get(key) or []` is truthy exactly when the key holds a truthy value, and then it is that value. |
| ClassIds.RosterOf | tests/test_scraper_e2e.py:266-277 | A roster with `alumnos` missing or null is the empty list. A list under `alumnos` is kept as it is. |
| ClassIds.OrEmptyListIdempotent | tests/test_scraper_e2e.py:266-277 | Coalescing an already coalesced roster changes nothing. |
| ClassIds.EmptyRosterRecord | tests/test_scraper_e2e.py:266-277 | A missing, null or empty `alumnos` gives a class record with no reservations and a count of 0. |
| ClassIds.ClassRecord | tests/test_scraper_e2e.py:288-299 | A class record has exactly the keys `class`, `classId`, `reservations`, `totalReservations` and `extractedAt`. Its count equals the length of its list. |
| ClassIds.DateRecord | tests/test_scraper_e2e.py:301-306 | A date record has exactly the keys `date`, `classes`, `totalClasses` and `scrapedAt`. Its count equals the number of classes, and every class record is well formed. |
| ClassIds.FormatDate | tests/test_scraper_e2e.py:233-241 | `strftime("%d-%m-%Y")` of a date with a four-digit year has length 10, with '-' at indices 2 and 5. |
| ClassIds.ParseDate | tests/test_scraper_e2e.py:250-254 | Reading a date succeeds only when `split("-")` gives three parts. |
| ClassIds.DateRoundTrip | tests/test_scraper_e2e.py:243-254 | A formatted date splits into three parts: day 1..31, month 1..12 and a four-digit year. Parsing them returns the original date. |
| ClassIds.DateSplits | tests/test_scraper_e2e.py:250-251 | `split("-")` of a formatted date gives back the zero-padded day, the zero-padded month and the year. |
| Calendar.LoadedState | src/scraper_playwright.py:37-43 | When a saved session is asked for and `session.json` exists, the storage state is the file's parsed contents, and reading it fails exactly when the file does not parse. In every other case the state is `None`. |
| Calendar.StartBrowser | src/scraper_playwright.py:27-55 | The call raises exactly when the saved session does not parse or the browser, its context or its page cannot be created, and then `is_logged_in` keeps its old value. Otherwise `is_logged_in` is never cleared, and it is set from false exactly when a saved session was asked for, `session.json` exists and the loaded state is non-empty. |
| Calendar.CoachName | src/scraper_playwright.py:95-107 | An option contributes its trimmed text, unless that text is empty or "Profesor", "Seleccionar" or "Todos", or the option's value is empty. |
| Calendar.CoachNames | src/scraper_playwright.py:95-107 | The coach list has no more names than options. Every name is trimmed, non-empty and not a generic label. Every option that passes the filter has its name listed. |
| Calendar.CoachNamesSound | src/scraper_playwright.py:95-107 | Every listed name comes from an option that passes the filter. |
| Calendar.CoachNamesAppend | src/scraper_playwright.py:95-107 | Filtering commutes with concatenation, so the names keep dropdown order. |
| Calendar.AvailableCoaches | src/scraper_playwright.py:59-127 | With no coach dropdown, or on an exception, the coach list is empty. Otherwise it is the filtered names of the dropdown's options. |
| Calendar.ClockEnd | src/scraper_playwright.py:373 | `\d{1,2}:\d{2}` at position k is found exactly when some clock starts there. It returns that clock's end. |
| Calendar.TimeMatchAt | src/scraper_playwright.py:373 | A match of the time-range pattern at p captures two clocks. Between them is only whitespace and the dash. `Calendar.TimeMatchComplete` proves the converse. |
| Calendar.FindTimeFrom | src/scraper_playwright.py:373 | `String.prototype.match` returns the leftmost position where the pattern matches. It returns null only when no position matches. |
| Calendar.TimeMatchComplete | src/scraper_playwright.py:373 | Two clocks around a dash, with only whitespace between them, make the pattern match where the first clock starts, capturing exactly those two clocks. |
| Calendar.ClockEndAt | src/scraper_playwright.py:373 | Where a clock occurs, `\d{1,2}:\d{2}` started there consumes exactly that clock. |
| Calendar.SpacesEndAt | src/scraper_playwright.py:373 | `\s*` consumes exactly a run of whitespace up to the first character that is not whitespace. |
| Calendar.FindTimeFindsOccurrence | src/scraper_playwright.py:373 | Wherever two clocks around a dash occur, the search finds a match that starts no later than the first clock. |
| Calendar.TimeRangeExample | src/scraper_playwright.py:373-381 | "9:00 - 10:15" yields start "9:00" and end "10:15". |
| Calendar.ReadEvent | src/scraper_playwright.py:369-381 | An event's text is the element's trimmed text content. `hasTime` holds iff the pattern matches, iff both times are set, and the times are clocks. |
| Calendar.ReadEvents | src/scraper_playwright.py:366-388 | There is one record per element, and each carries its element's position as `index`. |
| Calendar.TimedEvents | src/scraper_playwright.py:390 | The filtered list has no more events than the input, and every one has a time range. |
| Calendar.TimedEventsExact | src/scraper_playwright.py:390 | Every kept event comes from the input, and every input event with a time range is kept. |
| Calendar.ProcessedIndices | src/scraper_playwright.py:397-402 | The processed positions are below both the number of timed events and the element count. |
| Calendar.ProcessedIndicesExact | src/scraper_playwright.py:397-402 | The processed positions are increasing. They are exactly the positions that have an element and whose modal opened. |
| Calendar.DetailedAlignment | src/scraper_playwright.py:397-498 | Output event j is the timed event at the j-th processed position, with that position's modal details. So the i-th timed event goes with element i of the unfiltered list. |
| Calendar.Detailed | src/scraper_playwright.py:397-509 | The loop as written yields at most one event per timed event and per element. Each is a timed event of the page tagged with `filteredCoach`. `DetailedAlignment` says which modal each one gets. |
| Calendar.DetailedByIndex | src/scraper_playwright.py:390-509 | The corrected loop yields at most one event per timed event. Each is a timed event of the page, tagged with `filteredCoach`, whose own element exists. `DetailsFromOwnElement` and `DetailedByIndexComplete` show that it keeps exactly the events whose own modal opened, with that modal's details. |
| Calendar.DetailsFromOwnElement | src/scraper_playwright.py:397-498 | With the corrected pairing, every event's details come from the modal of the element it was read from. |
| Calendar.PairingsAgreeWhenPositionsMatch | src/scraper_playwright.py:390-402 | When every timed event's index equals its position, the loop as written and the corrected pairing give the same events. |
| Calendar.AllTimedKept | src/scraper_playwright.py:390 | Filtering a list whose events all have a time range keeps the whole list. |
| Calendar.AllTimedPairsCorrectly | src/scraper_playwright.py:366-402 | On a page where every card shows a time range, the loop as written pairs each event with its own element. |
| Calendar.AsWrittenPairsByPosition | src/scraper_playwright.py:390-402 | The as-written half of the finding below. On a page holding a card "Yoga" and then a card "9:00 - 10:15", the only timed event gets the first card's modal details. The corrected pairing gives it the second card's. |
| Calendar.NoDigitsNoTime | src/scraper_playwright.py:373 | A text without digits never matches the time-range pattern. |
| Calendar.FailureIsolated | src/scraper_playwright.py:502-509 | An exception while processing the element at f removes only the event read from it. Every other event, later ones included, is processed as before. |
| Calendar.ScrapeCalendar | src/scraper_playwright.py:326-527 | The result is `{}` exactly when not logged in, the page fails to load, a given coach cannot be selected, or no events appear. Otherwise it carries the coach, "BoxMagic", the URL and the time, and `totalEvents` equals the number of events. Events are paired with their own elements, as corrected under Findings. |
| Calendar.TimedEventsIncreasing | src/scraper_playwright.py:366-390 | The timed events stay in the order of the elements they were read from. |
| Calendar.DetailedByIndexIncreasing | src/scraper_playwright.py:397-498 | The detailed events stay in element order. |
| Calendar.PageEventsFromOwnElements | src/scraper_playwright.py:390-498 | Every event of a loaded page has a time range, was read from the page and carries `filteredCoach`. Its `modalDetails` are what its own element's modal gave. |
| Calendar.PageEventsOrdered | src/scraper_playwright.py:390-498 | A loaded page's events are in page order. There are no more of them than timed events or event elements. |
| Calendar.ScrapedEventsAreTimed | src/scraper_playwright.py:390-516 | A successful scrape returns only events with a time range, in page order. Each was read from the page, carries `filteredCoach` and holds its own element's modal details. There are no more of them than timed events or elements. Conversely, every card with a time range, a matching element and a modal that opened is returned. |
| Calendar.DetailedByIndexComplete | src/scraper_playwright.py:397-509 | With the corrected pairing, an event whose element exists and whose modal opened is always kept with that modal's details, whatever fails for the other events. |
| Calendar.PageEventsComplete | src/scraper_playwright.py:390-509 | Every card of a loaded page with a time range, a matching element and an opened modal appears among the page's events. |
| Calendar.ProcessEvents | src/scraper_playwright.py:397-509 | The `for idx, event_data in enumerate(valid_events)` loop, with its absorbed exceptions, computes the detailed event list. Each event opens its own element, as corrected under Findings. |
| Calendar.ScrapeCalendarWithDetails | src/scraper_playwright.py:326-527 | The method with its early returns and loop computes the same result as the functional definition. |
| Calendar.NotLoggedInScrapesNothing | src/scraper_playwright.py:331-333 | Without a login the result is `{}`, whatever the page holds. |
| Calendar.CoachScrapes | src/scraper_playwright.py:545-551 | There is one scrape result per coach found. Every non-empty result names that coach as its `coach`. Without a login every result is empty. |
| Calendar.CoachMap | src/scraper_playwright.py:545-553 | Every coach whose scrape returned data has an entry in the map. |
| Calendar.LastScrapeWins | src/scraper_playwright.py:545-553 | Each entry is the result of some scrape of that coach. Every later scrape of the same name returned `{}`. |
| Calendar.EntriesBelongToTheirCoach | src/scraper_playwright.py:545-553 | Every entry in the map is the calendar scraped for the coach it is stored under. |
| Calendar.ScrapeEach | src/scraper_playwright.py:545-553 | The `for coach in coaches` loop builds exactly the map the functional definition describes. |
| Calendar.ScrapeAllCoaches | src/scraper_playwright.py:529-558 | The result is `{}` exactly when no coach is found. Otherwise `totalCoaches` counts every coach found, while the map holds only the coaches whose scrape returned data. |
| Calendar.NotLoggedInMapsNoCoach | src/scraper_playwright.py:545-553 | Without a login every scrape returns `{}`, so the coach map is empty. |
| ApiServer.RunCheckinScraper | api_server.py:84-154 | A busy server is left as it was. Otherwise `is_scraping` ends false, `last_scrape` is stamped and the calendar is untouched. `error` is cleared exactly on success. On success the snapshot is replaced and `last_success` is stamped. On failure (an exception, or data without non-empty `dates`) the message is recorded and the snapshot and `last_success` are kept. |
| ApiServer.RunCalendarScraper | api_server.py:157-193 | The status and the check-in snapshot are never touched. The calendar snapshot is replaced exactly when the run returned data with non-empty `events`. |
| ApiServer.TriggerScrape | api_server.py:310-336 | Busy answers 409, and this is checked before the type. A missing or empty body starts a check-in. The type defaults to "checkin". "checkin" and "calendar" start their job with the matching message, and any other type answers 400. A truthy non-object body answers 500. |
| ApiServer.GetCheckinByDate | api_server.py:252-269 | With no snapshot the answer is 404. A missing date answers 404 with every available date. Otherwise the payload is the date and exactly `dates[date]`. `dates` that is not an object answers 500. |
| ApiServer.GetSnapshot | api_server.py:240-249 | `GET /api/checkin`, and likewise `GET /api/calendar` at api_server.py:298-307, answer 404 "No data available" with their message exactly when the snapshot is empty. Otherwise they serve it unchanged. `EndpointsServeLastSuccess` ties the snapshot to the last successful run. |
| ApiServer.SummaryTotal | api_server.py:359-360 | A summary total is the summary's value for the key, or 0 when the key is missing. It fails, which is a 500, exactly when `summary` is present but not an object. |
| ApiServer.GetCheckinByClass | api_server.py:272-295 | With no snapshot the answer is 404 "No data available". A date that Python's `in` does not find in `dates` answers 404 "Date not found" without a list: not a key of an object, not an element of a list, not a substring of a string. A date found in a list or string answers 500, as does a `dates` of any other kind or a date record or `classes` that is not an object. A missing class answers 404 with every class of the date. Otherwise the payload is the date, the class and exactly `classes[class_name]`. |
| ApiServer.DateMissingForBothLookups | api_server.py:252-279 | When `dates` is an object, the by-class handler answers "Date not found" exactly when the by-date handler does, and both answer "No data available" on the same snapshots. |
| ApiServer.GetAllData | api_server.py:339-365 | 404 comes only when both snapshots are empty. Otherwise the answer is 200 exactly when `len` and `.get` succeed on the non-empty snapshots' `dates`, `summary` and `events`, and 500 otherwise. Each snapshot is served when it is non-empty and flagged available. `total_dates` is `len(dates)` for an object, a list or a string. `total_classes` and `total_reservations` are the summary's values, and `total_calendar_events` is the length of `events`. Missing keys and empty snapshots count 0. |
| ApiServer.ServedDateIsScraped | api_server.py:133-146 | After a successful check-in run, every scraped date is served exactly as scraped. |
| ApiServer.ByClassAgreesWithByDate | api_server.py:272-295 | When the date's record holds the class, the by-class handler serves that class's entry of the record the by-date handler serves. |
| ApiServer.MissingClassListsClasses | api_server.py:283-287 | A class missing from an existing date answers 404 "Class not found" with every class of that date. |
| ApiServer.Startup | api_server.py:37-45 | The server starts idle, with no run, success or error recorded, and serves the snapshots loaded at start-up. `StartupQuiescent` and `SnapshotsAreLastSuccess` build on it. |
| ApiServer.StartupQuiescent | api_server.py:37-45 | At start-up no scrape is running and no success or error is recorded without a run. |
| ApiServer.StepKeepsQuiescent | api_server.py:84-193 | Every job or request leaves the server idle. A recorded success still means the snapshot has non-empty `dates`, and a success or error still means a run was stamped. |
| ApiServer.ApplyKeepsQuiescent | api_server.py:84-193 | The same holds after any sequence of jobs and requests. |
| ApiServer.StepRunsJobOf | api_server.py:310-336 | On an idle server an event changes the check-in snapshot only through a successful check-in run, and the calendar snapshot only through a successful calendar run. |
| ApiServer.Step | api_server.py:310-336 | One trigger request with its thread's job, or a scheduler tick that runs `run_checkin_scraper` or `run_calendar_scraper`. `next_scheduled` never changes, and a busy server keeps its status and check-in snapshot. A calendar tick touches only the calendar snapshot, and a check-in tick leaves it alone. A snapshot only ever changes to non-empty data whose `dates` or `events` is truthy. `StepRunsJobOf` says which job each event runs. |
| ApiServer.Apply | api_server.py:372-392 | Over any sequence of scheduler ticks and trigger requests, run one at a time, `next_scheduled` is kept, a non-empty snapshot never becomes empty, and a changed check-in snapshot has truthy `dates`. `SnapshotsAreLastSuccess` pins both snapshots. |
| ApiServer.SnapshotsAreLastSuccess | api_server.py:133-190 | After any history from start-up, each snapshot is the data of its job's last successful run. If no run succeeded, it is the start-up snapshot. |
| ApiServer.EndpointsServeLastSuccess | api_server.py:240-249 | After any history from start-up, `GET /api/checkin` serves the data of the last successful check-in run, or the start-up snapshot. It answers 404 "No data available" with its message only while that is empty. `GET /api/calendar` does the same for calendar runs. |
| ApiServer.AllDataFromLastSuccess | api_server.py:339-365 | After any history from start-up, `/api/all-data` answers 404 exactly when both last successes are empty. Its availability flags and data say which last successes are non-empty and serve them. `total_dates`, `total_classes`, `total_reservations` and `total_calendar_events` are computed from the last successful runs. |
| ApiServer.LastCheckinSplits | api_server.py:133-146 | The last successful check-in of a history split in two is that of the second part, or else that of the first. |
| ApiServer.CheckinStaysServed | api_server.py:133-146 | Once `GET /api/checkin` serves data it never answers 404 again, whatever jobs and requests follow. A failed run keeps the snapshot, and a successful one stores non-empty data. |

## Left out

- Playwright calls are outcomes of the `CalendarPage` oracle, not code. This covers navigation, waits, clicks, scrolling, screenshots and key presses. It also covers `select_coach`, the modal extraction scripts and the detection of which `<select>` is the coach dropdown. These are browser calls.
- The option text that the coach filter reads is the DOM's `option.text`, taken as given, so the browser's own whitespace collapsing is not modelled.
- Calendar.AvailableCoaches: an exception from the screenshot inside the `except` (src/scraper_playwright.py:122-127) would escape. The model answers `[]` for every failure.
- Calendar.ScrapeCalendar: an exception from the screenshot inside the outer `except` would escape. The model treats every failure before the loop as `{}`.
- The check-in pipeline is not part of this model: `scrape_checkin_all_dates`, `_parse_classes_from_api_response` and `start_browser(auto_login=...)`. Their bodies are not in the code modelled here.
  - `start_browser` (src/scraper_playwright.py:27) takes no `auto_login` argument. As written, the calls at api_server.py:109 and 172 would raise `TypeError`.
  - What a scraper run produced is therefore an input to the server model. It is an exception message or a returned dict.
- Flask routing, JSON encoding, CORS, the scheduler and `threading.Thread` are left out. Jobs and requests run one at a time, each to completion. The `is_scraping` check is not atomic, so the model says nothing about concurrent runs.
- `setup_scheduler` stamping `next_scheduled` is left out because it is a clock reading. The model only shows that no job or handler changes it.
- The `/`, `/health` and `/api/status` handlers return constants or the status record. They have no logic to prove.
- File I/O is left out: `load_latest_data`, `save_data_to_file`, backups, `session.json` reads and logging. The loaded snapshots are parameters of `Startup`, and they are taken to be JSON objects.
- Whether Playwright accepts a storage state is a parameter of `StartBrowser`. Launching Chromium, creating the context and opening the page are browser calls. Reading `session.json` is modelled only as parsed, unparsable or absent.
- Sleeps, `datetime.now()` and timestamps are parameters. `scrape_all_coaches` is given one time for the whole run, while the code reads the clock again for each coach.
- The date window at api_server.py:114-119 is left out. There `end_day` is the day-of-month six days ahead, paired with the current month, so it can be smaller than `start_day` near a month end.
- Retry.Retry: `delay` is a natural number. `time.sleep` with a negative delay raises, which is not modelled.
- ClassIds.IsCompositeId: `\d` is ASCII digits only. Python's `str` patterns also accept other Unicode decimal digits.
- ClassIds.FormatDate: years below 1000 are left out. There `%Y` formatting is platform-dependent.
- The 409 and 200 replies of `trigger_scrape` also echo `SCRAPING_STATUS` (api_server.py:316, 335). `ApiServer.TriggerScrape` does not carry that field. The 200 echo is read while the started thread may already be changing the status, so its value is a race.
- `trigger_scrape` bodies that are not JSON, and the errors Flask raises for them, are left out. The body is taken as a parsed JSON value.
- JSON numbers are integers. Float counts are not modelled.
- Dict key order is not modelled. The `available_dates` and `available_classes` lists are given as sets of keys.
- `value` in a class record is a string or absent. A non-string `value` would make `.strip()` raise.

## Findings

| source | as written | input that shows it | evidently intended | confidence | as-written member | corrected member |
|---|---|---|---|---|---|---|
| src/scraper_playwright.py:390-402 | The i-th event with a time range opens element `event_elements[idx]`, where idx is its position in the filtered list. That is element i of the unfiltered list. | A page with a card reading "Yoga" and then a card reading "9:00 - 10:15". The second card's event is reported with the details of the first card's modal. | Each event opens the element it was read from, `event_elements[event_data['index']]`. | medium, not executed | Calendar.AsWrittenPairsByPosition | Calendar.DetailsFromOwnElement |

The loop as written is `Calendar.Detailed`. `Calendar.DetailedAlignment` characterises it, and
`Calendar.AsWrittenPairsByPosition` exhibits the discrepancy. The corrected pairing is
`Calendar.DetailedByIndex`, and `Calendar.DetailsFromOwnElement` proves that it gives each event its
own element's details. `Calendar.ScrapeCalendar`, `Calendar.ProcessEvents` and the lemmas about a
scraped page use the corrected pairing. `Calendar.PairingsAgreeWhenPositionsMatch` and
`Calendar.AllTimedPairsCorrectly` show that the two pairings agree whenever every card has a time
range.
