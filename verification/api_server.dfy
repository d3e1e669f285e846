/**
 * The API server's state and its handlers: the `SCRAPING_STATUS` record, the two
 * snapshots `LATEST_CHECKIN_DATA` and `LATEST_CALENDAR_DATA`, the two scraper jobs and
 * the `/api/checkin...`, `/api/scrape/now` and `/api/all-data` handlers.
 *
 * Everything runs sequentially: a job (from the scheduler or from a trigger's thread) runs
 * to completion before the next event. What a scraper run produced is an input: it raised
 * an exception with some message, or it returned a dict. Timestamps are inputs too.
 */
module ApiServer {
  import opened Optional
  import opened Json

  // ---------------------------------------------------------------------------
  // State
  // ---------------------------------------------------------------------------

  datatype Status = Status(
    isScraping: bool,
    lastScrape: Option<string>,
    lastSuccess: Option<string>,
    nextScheduled: Option<string>,
    error: Option<string>)

  /** The module-level state: the status record and the two snapshots (Python dicts). */
  datatype Server = Server(status: Status, checkin: map<string, Json>, calendar: map<string, Json>)

  const IdleStatus := Status(false, None, None, None, None)

  /** The state after start-up, holding whatever snapshots were loaded from disk. */
  function Startup(checkin: map<string, Json>, calendar: map<string, Json>): (s: Server)
    ensures s.status == IdleStatus && s.checkin == checkin && s.calendar == calendar
    ensures !s.status.isScraping && s.status.lastScrape.None? && s.status.lastSuccess.None? && s.status.error.None?
  {
    Server(IdleStatus, checkin, calendar)
  }

  /** What one scraper run did: raised an exception with this message, or returned this dict. */
  datatype ScraperRun = ScraperRaised(message: string) | ScraperReturned(data: map<string, Json>)

  const NoDataMessage := "No data scraped"

  /** `if checkin_data and checkin_data.get('dates'):` */
  predicate CheckinSucceeded(run: ScraperRun) {
    run.ScraperReturned? && run.data != map[] && Truthy(GetOr(run.data, "dates", JNull))
  }

  /** `if calendar_data and calendar_data.get('events'):` */
  predicate CalendarSucceeded(run: ScraperRun) {
    run.ScraperReturned? && run.data != map[] && Truthy(GetOr(run.data, "events", JNull))
  }

  // ---------------------------------------------------------------------------
  // The two jobs
  // ---------------------------------------------------------------------------

  /**
   * `run_checkin_scraper()`. A busy server is left exactly as it was. Otherwise the run
   * stamps `last_scrape` and clears `error`; on success it replaces the snapshot and stamps
   * `last_success`, and on failure (an exception, or data without non-empty `dates`) it
   * records the message and keeps the snapshot; `is_scraping` always ends false.
   */
  function RunCheckinScraper(s: Server, startedAt: string, finishedAt: string, run: ScraperRun): (s': Server)
    ensures s.status.isScraping ==> s' == s
    ensures !s.status.isScraping ==>
      && !s'.status.isScraping
      && s'.status.lastScrape == Some(startedAt)
      && s'.status.nextScheduled == s.status.nextScheduled
      && s'.calendar == s.calendar
      && (s'.status.error.None? <==> CheckinSucceeded(run))
    ensures !s.status.isScraping && CheckinSucceeded(run) ==>
      s'.checkin == run.data && s'.status.lastSuccess == Some(finishedAt)
    ensures !s.status.isScraping && !CheckinSucceeded(run) ==>
      && s'.checkin == s.checkin
      && s'.status.lastSuccess == s.status.lastSuccess
      && s'.status.error == Some(if run.ScraperRaised? then run.message else NoDataMessage)
  {
    if s.status.isScraping then s
    else
      var started := s.status.(isScraping := true, lastScrape := Some(startedAt), error := None);
      var (status, checkin) :=
        match run
        case ScraperRaised(message) => (started.(error := Some(message)), s.checkin)
        case ScraperReturned(data) =>
          if data != map[] && Truthy(GetOr(data, "dates", JNull)) then
            (started.(lastSuccess := Some(finishedAt)), data)
          else
            (started.(error := Some(NoDataMessage)), s.checkin);
      Server(status.(isScraping := false), checkin, s.calendar)
  }

  /**
   * `run_calendar_scraper()`: it has no busy guard and never touches the status; the
   * calendar snapshot is replaced exactly when the run returned data with non-empty `events`.
   */
  function RunCalendarScraper(s: Server, run: ScraperRun): (s': Server)
    ensures s'.status == s.status && s'.checkin == s.checkin
    ensures CalendarSucceeded(run) ==> s'.calendar == run.data
    ensures !CalendarSucceeded(run) ==> s'.calendar == s.calendar
  {
    match run
    case ScraperReturned(data) =>
      if data != map[] && Truthy(GetOr(data, "events", JNull)) then s.(calendar := data) else s
    case ScraperRaised(_) => s
  }

  // ---------------------------------------------------------------------------
  // POST /api/scrape/now
  // ---------------------------------------------------------------------------

  datatype Job = CheckinJob | CalendarJob

  /** The handler's answer: 409, 200 with the started job, 400, or 500 (the handler raised). */
  datatype Trigger = Busy | Started(message: string, job: Job) | InvalidType | TriggerCrashed

  /**
   * `trigger_scrape()` on a request whose JSON body is `body` (`JNull` when there is none).
   * The busy check comes first; a falsy body counts as `{}`; `type` defaults to "checkin";
   * a truthy body that is not an object makes `.get` raise.
   */
  function TriggerScrape(s: Server, body: Json): (t: Trigger)
    ensures s.status.isScraping <==> t == Busy
    ensures !s.status.isScraping && !Truthy(body) ==> t == Started("Checkin scraping started", CheckinJob)
    ensures !s.status.isScraping && Truthy(body) && !body.JObj? ==> t == TriggerCrashed
    ensures !s.status.isScraping && Truthy(body) && body.JObj? ==>
      var kind := GetOr(body.fields, "type", JStr("checkin"));
      && (t == Started("Checkin scraping started", CheckinJob) <==> kind == JStr("checkin"))
      && (t == Started("Calendar scraping started", CalendarJob) <==> kind == JStr("calendar"))
      && (t == InvalidType <==> kind != JStr("checkin") && kind != JStr("calendar"))
  {
    if s.status.isScraping then Busy
    else
      var data := if Truthy(body) then body else JObj(map[]);
      match data
      case JObj(fields) =>
        var kind := GetOr(fields, "type", JStr("checkin"));
        if kind == JStr("checkin") then Started("Checkin scraping started", CheckinJob)
        else if kind == JStr("calendar") then Started("Calendar scraping started", CalendarJob)
        else InvalidType
      case _ => TriggerCrashed
  }

  // ---------------------------------------------------------------------------
  // The GET handlers
  // ---------------------------------------------------------------------------

  /**
   * A handler's answer: 200 with a payload, 404 with its `error` text, optional `message`
   * and optional list of available keys (given as a set), or 500 when the handler raised
   * on a snapshot of an unexpected shape.
   */
  datatype Reply<T> =
    | Found(payload: T)
    | NotFound(error: string, message: Option<string>, available: Option<set<string>>)
    | ServerError

  const NoDataAvailable := "No data available"

  /** `GET /api/checkin` and `GET /api/calendar`: the whole snapshot, or 404 when it is empty. */
  function GetSnapshot(snapshot: map<string, Json>, message: string): (r: Reply<map<string, Json>>)
    ensures r.Found? <==> snapshot != map[]
    ensures r.Found? ==> r.payload == snapshot
    ensures r.NotFound? ==> r == NotFound(NoDataAvailable, Some(message), None)
  {
    if snapshot == map[] then NotFound(NoDataAvailable, Some(message), None) else Found(snapshot)
  }

  /** `LATEST_CHECKIN_DATA.get('dates', {})`. */
  function DatesOf(checkin: map<string, Json>): Json {
    GetOr(checkin, "dates", JObj(map[]))
  }

  /** `day.get('classes', {})` on a date record that is a dict. */
  function ClassesOf(day: Json): Json
    requires day.JObj?
  {
    GetOr(day.fields, "classes", JObj(map[]))
  }

  /** `GET /api/checkin/<date>`: `{'date': date, 'data': dates[date]}`. */
  datatype DateReply = DateReply(date: string, data: Json)

  function GetCheckinByDate(checkin: map<string, Json>, date: string): (r: Reply<DateReply>)
    ensures checkin == map[] ==> r == NotFound(NoDataAvailable, None, None)
    ensures checkin != map[] ==> match GetOr(checkin, "dates", JObj(map[]))
      case JObj(dates) =>
        && (date in dates ==> r == Found(DateReply(date, dates[date])))
        && (date !in dates ==> r == NotFound("Date not found", None, Some(dates.Keys)))
      case _ => r == ServerError
  {
    if checkin == map[] then NotFound(NoDataAvailable, None, None)
    else
      match GetOr(checkin, "dates", JObj(map[]))
      case JObj(dates) =>
        if date !in dates then NotFound("Date not found", None, Some(dates.Keys))
        else Found(DateReply(date, dates[date]))
      case _ => ServerError
  }

  /** `GET /api/checkin/class/<date>/<class_name>`: `{'date', 'class', 'data': classes[class_name]}`. */
  datatype ClassReply = ClassReply(date: string, className: string, data: Json)

  /**
   * `date not in dates` is Python's `in`: on a dict it tests the keys, on a list the
   * elements and on a string the substrings, and on anything else it raises. Only a dict
   * can then be indexed by `date`; indexing a list or a string by it raises, as does
   * `.get` on a date record that is not a dict.
   */
  function GetCheckinByClass(checkin: map<string, Json>, date: string, className: string): (r: Reply<ClassReply>)
    ensures checkin == map[] ==> r == NotFound(NoDataAvailable, None, None)
    ensures checkin != map[] && DatesOf(checkin).JObj? ==>
      (r == NotFound("Date not found", None, None) <==> date !in DatesOf(checkin).fields)
    ensures checkin != map[] && DatesOf(checkin).JArr? ==>
      && (JStr(date) !in DatesOf(checkin).items ==> r == NotFound("Date not found", None, None))
      && (JStr(date) in DatesOf(checkin).items ==> r == ServerError)
    ensures checkin != map[] && DatesOf(checkin).JStr? ==>
      && (!IsSubstring(date, DatesOf(checkin).s) ==> r == NotFound("Date not found", None, None))
      && (IsSubstring(date, DatesOf(checkin).s) ==> r == ServerError)
    ensures checkin != map[] && !(DatesOf(checkin).JObj? || DatesOf(checkin).JArr? || DatesOf(checkin).JStr?) ==>
      r == ServerError
    ensures checkin != map[] && DatesOf(checkin).JObj? && date in DatesOf(checkin).fields ==>
      && (!DatesOf(checkin).fields[date].JObj? ==> r == ServerError)
      && (DatesOf(checkin).fields[date].JObj? ==> var classes := ClassesOf(DatesOf(checkin).fields[date]);
            && (!classes.JObj? ==> r == ServerError)
            && (classes.JObj? && className in classes.fields ==>
                  r == Found(ClassReply(date, className, classes.fields[className])))
            && (classes.JObj? && className !in classes.fields ==>
                  r == NotFound("Class not found", None, Some(classes.fields.Keys))))
  {
    if checkin == map[] then NotFound(NoDataAvailable, None, None)
    else
      var dates := DatesOf(checkin);
      match PyIn(date, dates)
      case None => ServerError
      case Some(false) => NotFound("Date not found", None, None)
      case Some(true) =>
        (match dates
         case JObj(fields) =>
           (match fields[date]
            case JObj(day) =>
              (match GetOr(day, "classes", JObj(map[]))
               case JObj(classes) =>
                 if className !in classes then NotFound("Class not found", None, Some(classes.Keys))
                 else Found(ClassReply(date, className, classes[className]))
               case _ => ServerError)
            case _ => ServerError)
         case _ => ServerError)
  }

  /** The body of `GET /api/all-data`. */
  datatype AllData = AllData(
    scrapedAt: string,
    status: Status,
    checkin: Option<map<string, Json>>,
    calendar: Option<map<string, Json>>,
    checkinAvailable: bool,
    calendarAvailable: bool,
    totalDates: nat,
    totalClasses: Json,
    totalReservations: Json,
    totalCalendarEvents: nat)

  /** `d.get('summary', {}).get(key, 0)`, or None where `.get` is applied to a non-dict. */
  function SummaryTotal(checkin: map<string, Json>, key: string): (r: Option<Json>)
    ensures r.Some? <==> GetOr(checkin, "summary", JObj(map[])).JObj?
    ensures r.Some? ==> r.value == GetOr(GetOr(checkin, "summary", JObj(map[])).fields, key, JNum(0))
  {
    match GetOr(checkin, "summary", JObj(map[]))
    case JObj(summary) => Some(GetOr(summary, key, JNum(0)))
    case _ => None
  }

  /** A check-in snapshot whose `dates` and `summary`, where present, are objects. */
  predicate WellShapedCheckin(checkin: map<string, Json>) {
    && GetOr(checkin, "dates", JObj(map[])).JObj?
    && GetOr(checkin, "summary", JObj(map[])).JObj?
  }

  /** A calendar snapshot whose `events`, where present, is a list. */
  predicate WellShapedCalendar(calendar: map<string, Json>) {
    GetOr(calendar, "events", JArr([])).JArr?
  }

  /**
   * `get_all_data()`: 404 only when both snapshots are empty. An empty snapshot contributes
   * None and zero counts; `total_dates` is the number of dates and missing summary totals
   * default to 0.
   */
  function GetAllData(s: Server, now: string): (r: Reply<AllData>)
    ensures r.NotFound? <==> s.checkin == map[] && s.calendar == map[]
    ensures r.NotFound? ==> r == NotFound(NoDataAvailable, Some("No data has been scraped yet"), None)
    ensures ((s.checkin != map[] || s.calendar != map[])
             && (s.checkin != map[] ==> WellShapedCheckin(s.checkin))
             && (s.calendar != map[] ==> WellShapedCalendar(s.calendar))) ==> r.Found?
    ensures r.Found? ==> var d := r.payload;
      && d.status == s.status && d.scrapedAt == now
      && (d.checkinAvailable <==> s.checkin != map[]) && (d.calendarAvailable <==> s.calendar != map[])
      && (d.checkin.Some? <==> s.checkin != map[]) && (d.checkin.Some? ==> d.checkin.value == s.checkin)
      && (d.calendar.Some? <==> s.calendar != map[]) && (d.calendar.Some? ==> d.calendar.value == s.calendar)
      && (s.checkin == map[] ==> d.totalDates == 0 && d.totalClasses == JNum(0) && d.totalReservations == JNum(0))
      && (s.calendar == map[] ==> d.totalCalendarEvents == 0)
      && (GetOr(s.checkin, "dates", JObj(map[])).JObj? ==> d.totalDates == |GetOr(s.checkin, "dates", JObj(map[])).fields|)
      && (s.checkin != map[] && "summary" !in s.checkin ==> d.totalClasses == JNum(0) && d.totalReservations == JNum(0))
    ensures r.Found? && s.checkin != map[] ==>
      && Some(r.payload.totalClasses) == SummaryTotal(s.checkin, "totalClasses")
      && Some(r.payload.totalReservations) == SummaryTotal(s.checkin, "totalReservations")
    ensures r.Found? && s.checkin != map[] && "summary" in s.checkin ==>
      && s.checkin["summary"].JObj?
      && r.payload.totalClasses == GetOr(s.checkin["summary"].fields, "totalClasses", JNum(0))
      && r.payload.totalReservations == GetOr(s.checkin["summary"].fields, "totalReservations", JNum(0))
    ensures r.Found? && s.calendar != map[] ==>
      Some(r.payload.totalCalendarEvents) == PyLen(GetOr(s.calendar, "events", JArr([])))
    ensures r.Found? && s.calendar != map[] && "events" in s.calendar && s.calendar["events"].JArr? ==>
      r.payload.totalCalendarEvents == |s.calendar["events"].items|
    ensures r.Found? && s.calendar != map[] && "events" !in s.calendar ==> r.payload.totalCalendarEvents == 0
    ensures r.Found? && s.checkin != map[] ==>
      Some(r.payload.totalDates) == PyLen(GetOr(s.checkin, "dates", JObj(map[])))
    ensures (s.checkin != map[] || s.calendar != map[]) ==>
      (r.Found? <==>
        && (s.checkin != map[] ==>
              && PyLen(GetOr(s.checkin, "dates", JObj(map[]))).Some?
              && SummaryTotal(s.checkin, "totalClasses").Some?
              && SummaryTotal(s.checkin, "totalReservations").Some?)
        && (s.calendar != map[] ==> PyLen(GetOr(s.calendar, "events", JArr([]))).Some?))
  {
    if s.checkin == map[] && s.calendar == map[] then
      NotFound(NoDataAvailable, Some("No data has been scraped yet"), None)
    else
      var totalDates := if s.checkin != map[] then PyLen(GetOr(s.checkin, "dates", JObj(map[]))) else Some(0);
      var totalClasses := if s.checkin != map[] then SummaryTotal(s.checkin, "totalClasses") else Some(JNum(0));
      var totalReservations := if s.checkin != map[] then SummaryTotal(s.checkin, "totalReservations") else Some(JNum(0));
      var totalEvents := if s.calendar != map[] then PyLen(GetOr(s.calendar, "events", JArr([]))) else Some(0);
      if totalDates.None? || totalClasses.None? || totalReservations.None? || totalEvents.None? then ServerError
      else
        Found(AllData(
          now, s.status,
          if s.checkin != map[] then Some(s.checkin) else None,
          if s.calendar != map[] then Some(s.calendar) else None,
          s.checkin != map[], s.calendar != map[],
          totalDates.value, totalClasses.value, totalReservations.value, totalEvents.value))
  }

  // ---------------------------------------------------------------------------
  // Properties across handlers
  // ---------------------------------------------------------------------------

  /** After a successful check-in run, every stored date is served exactly as scraped. */
  lemma ServedDateIsScraped(s: Server, startedAt: string, finishedAt: string, run: ScraperRun, date: string)
    requires !s.status.isScraping && CheckinSucceeded(run)
    requires GetOr(run.data, "dates", JNull).JObj? && date in GetOr(run.data, "dates", JNull).fields
    ensures GetCheckinByDate(RunCheckinScraper(s, startedAt, finishedAt, run).checkin, date)
         == Found(DateReply(date, run.data["dates"].fields[date]))
  {
  }

  /**
   * The by-class lookup agrees with the by-date lookup: when the date's record holds a
   * `classes` object containing the class, the class's entry of that record is served.
   */
  lemma ByClassAgreesWithByDate(checkin: map<string, Json>, date: string, className: string)
    requires GetCheckinByDate(checkin, date).Found?
    requires var day := GetCheckinByDate(checkin, date).payload.data;
      day.JObj? && GetOr(day.fields, "classes", JObj(map[])).JObj?
      && className in GetOr(day.fields, "classes", JObj(map[])).fields
    ensures var day := GetCheckinByDate(checkin, date).payload.data;
      GetCheckinByClass(checkin, date, className)
        == Found(ClassReply(date, className, GetOr(day.fields, "classes", JObj(map[])).fields[className]))
  {
  }

  /**
   * The two check-in lookups agree on missing dates: on a snapshot whose `dates` is an
   * object, the by-class handler answers "Date not found" exactly when the by-date handler
   * does, and both answer 404 with "No data available" on an empty snapshot.
   */
  lemma DateMissingForBothLookups(checkin: map<string, Json>, date: string, className: string)
    requires GetOr(checkin, "dates", JObj(map[])).JObj?
    ensures GetCheckinByClass(checkin, date, className).NotFound?
              && GetCheckinByClass(checkin, date, className).error == "Date not found"
        <==> GetCheckinByDate(checkin, date).NotFound?
              && GetCheckinByDate(checkin, date).error == "Date not found"
    ensures GetCheckinByClass(checkin, date, className) == NotFound(NoDataAvailable, None, None)
        <==> GetCheckinByDate(checkin, date) == NotFound(NoDataAvailable, None, None)
  {
  }

  /** A missing class answers 404 and lists the classes of the date. */
  lemma MissingClassListsClasses(checkin: map<string, Json>, date: string, className: string)
    requires checkin != map[] && GetOr(checkin, "dates", JObj(map[])).JObj?
    requires var dates := GetOr(checkin, "dates", JObj(map[])).fields;
      date in dates && dates[date].JObj? && GetOr(dates[date].fields, "classes", JObj(map[])).JObj?
      && className !in GetOr(dates[date].fields, "classes", JObj(map[])).fields
    ensures var classes := GetOr(GetOr(checkin, "dates", JObj(map[])).fields[date].fields, "classes", JObj(map[])).fields;
      GetCheckinByClass(checkin, date, className) == NotFound("Class not found", None, Some(classes.Keys))
  {
  }

  // ---------------------------------------------------------------------------
  // Sequential replay
  // ---------------------------------------------------------------------------

  /**
   * What happens to the server, one event at a time: the 15-minute check-in job, the daily
   * calendar job, or a trigger request whose thread (if one is started) runs its job.
   */
  datatype Event =
    | CheckinTick(startedAt: string, finishedAt: string, run: ScraperRun)
    | CalendarTick(run: ScraperRun)
    | TriggerRequest(body: Json, startedAt: string, finishedAt: string, run: ScraperRun)

  function Step(s: Server, e: Event): (s': Server)
    ensures s'.status.nextScheduled == s.status.nextScheduled
    ensures s.status.isScraping ==> s'.status == s.status && s'.checkin == s.checkin
    ensures e.CalendarTick? ==> s'.status == s.status && s'.checkin == s.checkin
    ensures e.CheckinTick? ==> s'.calendar == s.calendar
    ensures s'.checkin != s.checkin ==> s'.checkin != map[] && Truthy(GetOr(s'.checkin, "dates", JNull))
    ensures s'.calendar != s.calendar ==> s'.calendar != map[] && Truthy(GetOr(s'.calendar, "events", JNull))
  {
    match e
    case CheckinTick(startedAt, finishedAt, run) => RunCheckinScraper(s, startedAt, finishedAt, run)
    case CalendarTick(run) => RunCalendarScraper(s, run)
    case TriggerRequest(body, startedAt, finishedAt, run) =>
      match TriggerScrape(s, body)
      case Started(_, CheckinJob) => RunCheckinScraper(s, startedAt, finishedAt, run)
      case Started(_, CalendarJob) => RunCalendarScraper(s, run)
      case _ => s
  }

  /** The state after replaying `events` in order from `s`. */
  function Apply(s: Server, events: seq<Event>): (s': Server)
    ensures s'.status.nextScheduled == s.status.nextScheduled
    ensures s.checkin != map[] ==> s'.checkin != map[]
    ensures s'.checkin != s.checkin ==> Truthy(GetOr(s'.checkin, "dates", JNull))
    ensures s.calendar != map[] ==> s'.calendar != map[]
    decreases |events|
  {
    if events == [] then s else Step(Apply(s, events[..|events| - 1]), events[|events| - 1])
  }

  /**
   * What holds between sequential events: no scrape is in progress, a recorded success
   * means the check-in snapshot has non-empty `dates`, and success or error implies a run
   * was stamped.
   */
  predicate Quiescent(s: Server) {
    && !s.status.isScraping
    && (s.status.lastSuccess.Some? ==> s.status.lastScrape.Some? && Truthy(GetOr(s.checkin, "dates", JNull)))
    && (s.status.error.Some? ==> s.status.lastScrape.Some?)
  }

  lemma StartupQuiescent(checkin: map<string, Json>, calendar: map<string, Json>)
    ensures Quiescent(Startup(checkin, calendar))
  {
  }

  lemma StepKeepsQuiescent(s: Server, e: Event)
    requires Quiescent(s)
    ensures Quiescent(Step(s, e))
  {
  }

  lemma {:induction false} ApplyKeepsQuiescent(s: Server, events: seq<Event>)
    requires Quiescent(s)
    ensures Quiescent(Apply(s, events))
    decreases |events|
  {
    if events != [] {
      ApplyKeepsQuiescent(s, events[..|events| - 1]);
      StepKeepsQuiescent(Apply(s, events[..|events| - 1]), events[|events| - 1]);
    }
  }

  /** The job an event runs on a quiescent server, if any. */
  function JobOf(e: Event): Option<Job> {
    match e
    case CheckinTick(_, _, _) => Some(CheckinJob)
    case CalendarTick(_) => Some(CalendarJob)
    case TriggerRequest(body, _, _, _) =>
      match TriggerScrape(Server(IdleStatus, map[], map[]), body)
      case Started(_, job) => Some(job)
      case _ => None
  }

  /**
   * The check-in snapshot after a history, defined independently of `Step`: the data of the
   * last check-in run that succeeded, or the start-up snapshot if none did.
   */
  function LastCheckinSnapshot(initial: map<string, Json>, events: seq<Event>): map<string, Json>
    decreases |events|
  {
    if events == [] then initial
    else
      var e := events[|events| - 1];
      if JobOf(e) == Some(CheckinJob) && CheckinSucceeded(e.run) then e.run.data
      else LastCheckinSnapshot(initial, events[..|events| - 1])
  }

  /** The calendar snapshot after a history: the data of the last calendar run that succeeded. */
  function LastCalendarSnapshot(initial: map<string, Json>, events: seq<Event>): map<string, Json>
    decreases |events|
  {
    if events == [] then initial
    else
      var e := events[|events| - 1];
      if JobOf(e) == Some(CalendarJob) && CalendarSucceeded(e.run) then e.run.data
      else LastCalendarSnapshot(initial, events[..|events| - 1])
  }

  /** On a quiescent server an event's effect does not depend on the state it meets. */
  lemma StepRunsJobOf(s: Server, e: Event)
    requires Quiescent(s)
    ensures var s' := Step(s, e);
      && (JobOf(e) == Some(CheckinJob) && CheckinSucceeded(e.run) ==> s'.checkin == e.run.data)
      && (!(JobOf(e) == Some(CheckinJob) && CheckinSucceeded(e.run)) ==> s'.checkin == s.checkin)
      && (JobOf(e) == Some(CalendarJob) && CalendarSucceeded(e.run) ==> s'.calendar == e.run.data)
      && (!(JobOf(e) == Some(CalendarJob) && CalendarSucceeded(e.run)) ==> s'.calendar == s.calendar)
  {
    if e.TriggerRequest? {
      assert TriggerScrape(s, e.body) == TriggerScrape(Server(IdleStatus, map[], map[]), e.body);
    }
  }

  /**
   * Snapshots change only on non-empty data: after any history from start-up, each
   * snapshot is the data of the last successful run of its job, or the start-up snapshot.
   */
  lemma {:induction false} SnapshotsAreLastSuccess(checkin: map<string, Json>, calendar: map<string, Json>, events: seq<Event>)
    ensures Apply(Startup(checkin, calendar), events).checkin == LastCheckinSnapshot(checkin, events)
    ensures Apply(Startup(checkin, calendar), events).calendar == LastCalendarSnapshot(calendar, events)
    decreases |events|
  {
    if events != [] {
      var prefix := events[..|events| - 1];
      SnapshotsAreLastSuccess(checkin, calendar, prefix);
      ApplyKeepsQuiescent(Startup(checkin, calendar), prefix);
      StepRunsJobOf(Apply(Startup(checkin, calendar), prefix), events[|events| - 1]);
    }
  }

  /**
   * `GET /api/checkin` and `GET /api/calendar` after any history from start-up: each serves
   * the data of its job's last successful run (or the start-up snapshot), and answers 404
   * only while that is empty.
   */
  lemma EndpointsServeLastSuccess(checkin: map<string, Json>, calendar: map<string, Json>, events: seq<Event>, message: string)
    ensures var s := Apply(Startup(checkin, calendar), events);
      var lastCheckin := LastCheckinSnapshot(checkin, events);
      var lastCalendar := LastCalendarSnapshot(calendar, events);
      && GetSnapshot(s.checkin, message)
           == (if lastCheckin == map[] then NotFound(NoDataAvailable, Some(message), None) else Found(lastCheckin))
      && GetSnapshot(s.calendar, message)
           == (if lastCalendar == map[] then NotFound(NoDataAvailable, Some(message), None) else Found(lastCalendar))
  {
    SnapshotsAreLastSuccess(checkin, calendar, events);
  }

  /**
   * `GET /api/all-data` after any history from start-up reports the last successful runs:
   * each availability flag says whether that job's last success (or the start-up snapshot)
   * is non-empty, and `total_dates` counts the dates of the last successful check-in run.
   */
  lemma AllDataFromLastSuccess(checkin: map<string, Json>, calendar: map<string, Json>, events: seq<Event>, now: string)
    ensures var r := GetAllData(Apply(Startup(checkin, calendar), events), now);
      var lastCheckin := LastCheckinSnapshot(checkin, events);
      var lastCalendar := LastCalendarSnapshot(calendar, events);
      && (r.NotFound? <==> lastCheckin == map[] && lastCalendar == map[])
      && (r.Found? ==>
            && (r.payload.checkinAvailable <==> lastCheckin != map[])
            && (r.payload.calendarAvailable <==> lastCalendar != map[])
            && (r.payload.checkin.Some? ==> r.payload.checkin.value == lastCheckin)
            && (r.payload.calendar.Some? ==> r.payload.calendar.value == lastCalendar)
            && (GetOr(lastCheckin, "dates", JObj(map[])).JObj? ==>
                  r.payload.totalDates == |GetOr(lastCheckin, "dates", JObj(map[])).fields|)
            && (lastCheckin != map[] ==>
                  && Some(r.payload.totalDates) == PyLen(GetOr(lastCheckin, "dates", JObj(map[])))
                  && Some(r.payload.totalClasses) == SummaryTotal(lastCheckin, "totalClasses")
                  && Some(r.payload.totalReservations) == SummaryTotal(lastCheckin, "totalReservations"))
            && (lastCalendar != map[] ==>
                  Some(r.payload.totalCalendarEvents) == PyLen(GetOr(lastCalendar, "events", JArr([])))))
  {
    SnapshotsAreLastSuccess(checkin, calendar, events);
  }

  /** Replaying a history in two parts: the last success of the whole is found in the second part, or else in the first. */
  lemma {:induction false} LastCheckinSplits(initial: map<string, Json>, events: seq<Event>, more: seq<Event>)
    ensures LastCheckinSnapshot(initial, events + more) == LastCheckinSnapshot(LastCheckinSnapshot(initial, events), more)
    decreases |more|
  {
    if more == [] {
      assert events + more == events;
    } else {
      var front := more[..|more| - 1];
      assert (events + more)[..|events + more| - 1] == events + front;
      assert (events + more)[|events + more| - 1] == more[|more| - 1];
      LastCheckinSplits(initial, events, front);
    }
  }

  /** Only non-empty data replaces a non-empty check-in snapshot. */
  lemma {:induction false} LastCheckinNonEmpty(initial: map<string, Json>, events: seq<Event>)
    requires initial != map[]
    ensures LastCheckinSnapshot(initial, events) != map[]
    decreases |events|
  {
    if events != [] {
      LastCheckinNonEmpty(initial, events[..|events| - 1]);
    }
  }

  /**
   * Once `GET /api/checkin` serves data it never answers 404 again: every later check-in
   * run either fails, keeping the snapshot, or replaces it with non-empty data.
   */
  lemma CheckinStaysServed(checkin: map<string, Json>, calendar: map<string, Json>, events: seq<Event>, more: seq<Event>, message: string)
    requires GetSnapshot(Apply(Startup(checkin, calendar), events).checkin, message).Found?
    ensures GetSnapshot(Apply(Startup(checkin, calendar), events + more).checkin, message).Found?
  {
    SnapshotsAreLastSuccess(checkin, calendar, events);
    SnapshotsAreLastSuccess(checkin, calendar, events + more);
    LastCheckinSplits(checkin, events, more);
    LastCheckinNonEmpty(LastCheckinSnapshot(checkin, events), more);
  }
}
