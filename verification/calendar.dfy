/**
 * The calendar side of the scraper: the login flag `start_browser` sets, the coach
 * list read from the "Profesor" dropdown, `scrape_calendar_with_details` and
 * `scrape_all_coaches`.
 *
 * The browser is an oracle. A `CalendarPage` says whether loading the calendar
 * succeeded, what `select_coach` reported, whether the event elements appeared, the
 * elements the in-page script read, how many elements the second query returned, and
 * what opening the modal of the element at each index did.
 */
module Calendar {
  import opened Optional
  import opened Json
  import opened Text

  // ---------------------------------------------------------------------------
  // start_browser
  // ---------------------------------------------------------------------------

  /** The `session.json` file: absent, not valid JSON (so `json.load` raises), or holding this JSON document. */
  datatype SessionFile = NoSessionFile | UnreadableSessionFile | SessionFile(contents: Json)

  /**
   * The storage state handed to the new browser context; `JNull` stands for Python's `None`.
   * None when `json.load` raises on the saved session.
   */
  function LoadedState(useSavedSession: bool, file: SessionFile): (state: Option<Json>)
    ensures state.None? <==> useSavedSession && file.UnreadableSessionFile?
    ensures state.Some? && state.value != JNull ==> useSavedSession && file.SessionFile? && state.value == file.contents
    ensures useSavedSession && file.SessionFile? ==> state == Some(file.contents)
  {
    if !useSavedSession then Some(JNull)
    else
      match file
      case NoSessionFile => Some(JNull)
      case UnreadableSessionFile => None
      case SessionFile(contents) => Some(contents)
  }

  /** How `start_browser` ended: whether it raised, and `is_logged_in` afterwards. */
  datatype BrowserStart = BrowserStart(raised: bool, loggedIn: bool)

  /**
   * `start_browser`. `browserReady` is the browser's part: launching Chromium, creating the
   * context with the loaded storage state and opening a page all succeeded (a storage state
   * Playwright rejects, such as a string naming no file, makes it false). When anything
   * raises, the exception propagates before `is_logged_in` is touched. Otherwise the flag is
   * only ever set, never cleared, and it is set exactly when a saved session was asked for,
   * the file exists and its contents are non-empty.
   */
  function StartBrowser(wasLoggedIn: bool, useSavedSession: bool, file: SessionFile, browserReady: bool)
    : (r: BrowserStart)
    ensures r.raised <==> !browserReady || (useSavedSession && file.UnreadableSessionFile?)
    ensures r.raised ==> r.loggedIn == wasLoggedIn
    ensures wasLoggedIn ==> r.loggedIn
    ensures !r.raised && !wasLoggedIn ==>
      (r.loggedIn <==> useSavedSession && file.SessionFile? && Truthy(file.contents))
  {
    match LoadedState(useSavedSession, file)
    case None => BrowserStart(true, wasLoggedIn)
    case Some(state) =>
      if !browserReady then BrowserStart(true, wasLoggedIn)
      else BrowserStart(false, wasLoggedIn || Truthy(state))
  }

  // ---------------------------------------------------------------------------
  // get_available_coaches: the option filter
  // ---------------------------------------------------------------------------

  datatype CoachOption = CoachOption(value: string, text: string)

  /** The option labels that are not coach names. */
  const GenericLabels: set<string> := {"Profesor", "Seleccionar", "Todos"}

  /** A coach name as the filter leaves it: non-empty, trimmed, not a generic label. */
  predicate WellFormedName(n: string) {
    n != [] && n !in GenericLabels && !IsJsSpace(n[0]) && !IsJsSpace(n[|n| - 1])
  }
  /** The name an option contributes: its trimmed text, unless the filter drops it. */
  function CoachName(o: CoachOption): (name: Option<string>)
    ensures name.Some? ==> WellFormedName(name.value) && name.value == JsTrim(o.text)
    ensures name.None? <==> JsTrim(o.text) == [] || JsTrim(o.text) in GenericLabels || o.value == []
  {
    var t := JsTrim(o.text);
    if t != [] && t !in GenericLabels && o.value != [] then Some(t) else None
  }
  /** The names of the options that survive the filter, in dropdown order. */
  function CoachNames(options: seq<CoachOption>): (names: seq<string>)
    ensures |names| <= |options|
    ensures forall j :: 0 <= j < |names| ==> WellFormedName(names[j])
    ensures forall i :: 0 <= i < |options| && CoachName(options[i]).Some? ==> CoachName(options[i]).value in names
    decreases |options|
  {
    if options == [] then []
    else
      var init := options[..|options| - 1];
      var last := CoachName(options[|options| - 1]);
      var prev := CoachNames(init);
      assert forall i :: 0 <= i < |init| ==> init[i] == options[i];
      var names := prev + (if last.Some? then [last.value] else []);
      names
  }

  /** Every listed name comes from some option of the dropdown. */
  lemma {:induction false} CoachNamesSound(options: seq<CoachOption>, n: string)
    requires n in CoachNames(options)
    ensures exists i :: 0 <= i < |options| && CoachName(options[i]) == Some(n)
    decreases |options|
  {
    var init := options[..|options| - 1];
    var last := CoachName(options[|options| - 1]);
    if n in CoachNames(init) {
      CoachNamesSound(init, n);
      var i :| 0 <= i < |init| && CoachName(init[i]) == Some(n);
      assert init[i] == options[i];
    } else {
      assert last == Some(n);
    }
  }

  /** Filtering commutes with concatenation, so the coach list keeps dropdown order. */
  lemma {:induction false} CoachNamesAppend(a: seq<CoachOption>, b: seq<CoachOption>)
    ensures CoachNames(a + b) == CoachNames(a) + CoachNames(b)
    decreases |b|
  {
    if b == [] {
      assert a + b == a;
    } else {
      var b' := b[..|b| - 1];
      assert (a + b)[..|a + b| - 1] == a + b';
      CoachNamesAppend(a, b');
    }
  }

  /**
   * `get_available_coaches()`: the filtered names of the coach dropdown; `None` stands for
   * "no such dropdown" and for any exception, both of which give the empty list.
   */
  function AvailableCoaches(dropdown: Option<seq<CoachOption>>): (coaches: seq<string>)
    ensures dropdown.None? ==> coaches == []
    ensures dropdown.Some? ==> coaches == CoachNames(dropdown.value)
  {
    match dropdown
    case None => []
    case Some(options) => CoachNames(options)
  }

  // ---------------------------------------------------------------------------
  // The in-page event scan: /(\d{1,2}:\d{2})\s*-\s*(\d{1,2}:\d{2})/
  // ---------------------------------------------------------------------------

  predicate DigitAt(s: string, k: nat) {
    k < |s| && IsDigit(s[k])
  }

  predicate CharAt(s: string, k: nat, c: char) {
    k < |s| && s[k] == c
  }

  /** `t` is `\d{1,2}:\d{2}`. */
  predicate IsClock(t: string) {
    || (|t| == 4 && IsDigit(t[0]) && t[1] == ':' && IsDigit(t[2]) && IsDigit(t[3]))
    || (|t| == 5 && IsDigit(t[0]) && IsDigit(t[1]) && t[2] == ':' && IsDigit(t[3]) && IsDigit(t[4]))
  }

  /**
   * Where `\d{1,2}:\d{2}` matched at `k` ends. The two-digit hour is tried first; when it
   * applies the one-digit hour cannot, since its ':' would have to be a digit.
   */
  function ClockEnd(s: string, k: nat): (e: Option<nat>)
    ensures e.Some? ==> k + 4 <= e.value <= |s| && IsClock(s[k..e.value])
    ensures e.None? ==> forall j :: k + 4 <= j <= |s| ==> !IsClock(s[k..j])
  {
    if DigitAt(s, k) && DigitAt(s, k + 1) && CharAt(s, k + 2, ':') && DigitAt(s, k + 3) && DigitAt(s, k + 4) then
      Some(k + 5)
    else if DigitAt(s, k) && CharAt(s, k + 1, ':') && DigitAt(s, k + 2) && DigitAt(s, k + 3) then
      Some(k + 4)
    else
      assert forall j :: k + 4 <= j <= |s| ==> !IsClock(s[k..j]) by {
        forall j | k + 4 <= j <= |s| ensures !IsClock(s[k..j]) {
          var t := s[k..j];
          assert forall i :: 0 <= i < |t| ==> t[i] == s[k + i];
        }
      }
      None
  }

  /** The end of the `\s*` run starting at `k` (JavaScript whitespace). */
  function SpacesEnd(s: string, k: nat): (e: nat)
    requires k <= |s|
    ensures k <= e <= |s|
    ensures forall j :: k <= j < e ==> IsJsSpace(s[j])
    ensures e < |s| ==> !IsJsSpace(s[e])
    decreases |s| - k
  {
    if k < |s| && IsJsSpace(s[k]) then SpacesEnd(s, k + 1) else k
  }

  /** A match of the time-range pattern: the two captured clocks are `s[start..firstEnd]` and `s[secondStart..end]`. */
  datatype TimeMatch = TimeMatch(start: nat, firstEnd: nat, secondStart: nat, end: nat)

  /**
   * The pattern started at `p`. Every step is forced: `\s*` is greedy and neither a space
   * nor a digit can stand in for '-', so backtracking never finds another match.
   */
  function TimeMatchAt(s: string, p: nat): (m: Option<TimeMatch>)
    ensures m.Some? ==> var t := m.value;
      && t.start == p < t.firstEnd < t.secondStart < t.end <= |s|
      && IsClock(s[t.start..t.firstEnd]) && IsClock(s[t.secondStart..t.end])
      && (forall j :: t.firstEnd <= j < t.secondStart ==> IsJsSpace(s[j]) || s[j] == '-')
  {
    match ClockEnd(s, p)
    case None => None
    case Some(e1) =>
      var w1 := SpacesEnd(s, e1);
      if CharAt(s, w1, '-') then
        var w2 := SpacesEnd(s, w1 + 1);
        match ClockEnd(s, w2)
        case None => None
        case Some(e2) => Some(TimeMatch(p, e1, w2, e2))
      else None
  }

  /** The leftmost match at or after `p`, as `String.prototype.match` finds it. */
  function FindTimeFrom(s: string, p: nat): (m: Option<TimeMatch>)
    requires p <= |s|
    ensures m.Some? ==> p <= m.value.start && TimeMatchAt(s, m.value.start) == m
                        && forall j :: p <= j < m.value.start ==> TimeMatchAt(s, j).None?
    ensures m.None? ==> forall j :: p <= j <= |s| ==> TimeMatchAt(s, j).None?
    decreases |s| - p
  {
    var here := TimeMatchAt(s, p);
    if here.Some? then here
    else if p == |s| then None
    else
      var rest := FindTimeFrom(s, p + 1);
      assert forall j :: p <= j < p + 1 ==> TimeMatchAt(s, j) == here;
      rest
  }

  /**
   * The converse of `TimeMatchAt`'s contract: two clocks around a dash, with only
   * whitespace between them, make the pattern match where the first clock starts.
   */
  lemma TimeMatchComplete(s: string, p: nat, e1: nat, b: nat, w2: nat, e2: nat)
    requires p < e1 <= b < w2 < e2 <= |s|
    requires IsClock(s[p..e1]) && IsClock(s[w2..e2])
    requires forall j :: e1 <= j < b ==> IsJsSpace(s[j])
    requires s[b] == '-'
    requires forall j :: b + 1 <= j < w2 ==> IsJsSpace(s[j])
    ensures TimeMatchAt(s, p) == Some(TimeMatch(p, e1, w2, e2))
  {
    ClockEndAt(s, p, e1);
    SpacesEndAt(s, e1, b);
    ClockEndAt(s, w2, e2);
    assert IsDigit(s[w2]) by {
      assert s[w2..e2][0] == s[w2];
    }
    SpacesEndAt(s, b + 1, w2);
  }

  /** Where a clock occurs, `\d{1,2}:\d{2}` matches it whole. */
  lemma ClockEndAt(s: string, k: nat, e: nat)
    requires k < e <= |s| && IsClock(s[k..e])
    ensures ClockEnd(s, k) == Some(e)
  {
    var t := s[k..e];
    assert forall i :: 0 <= i < |t| ==> t[i] == s[k + i];
  }

  /** A run of whitespace ended by a character that is not whitespace is exactly what `\s*` consumes. */
  lemma {:induction false} SpacesEndAt(s: string, k: nat, e: nat)
    requires k <= e < |s|
    requires forall j :: k <= j < e ==> IsJsSpace(s[j])
    requires !IsJsSpace(s[e])
    ensures SpacesEnd(s, k) == e
    decreases e - k
  {
    if k < e {
      SpacesEndAt(s, k + 1, e);
    }
  }

  /**
   * The search misses no occurrence: wherever two clocks around a dash occur at or after
   * `p`, a match is found no later than the first clock.
   */
  lemma FindTimeFindsOccurrence(s: string, p: nat, q: nat, e1: nat, b: nat, w2: nat, e2: nat)
    requires p <= q < e1 <= b < w2 < e2 <= |s|
    requires IsClock(s[q..e1]) && IsClock(s[w2..e2])
    requires forall j :: e1 <= j < b ==> IsJsSpace(s[j])
    requires s[b] == '-'
    requires forall j :: b + 1 <= j < w2 ==> IsJsSpace(s[j])
    ensures FindTimeFrom(s, p).Some? && FindTimeFrom(s, p).value.start <= q
  {
    TimeMatchComplete(s, q, e1, b, w2, e2);
  }

  function FindTimeRange(s: string): Option<TimeMatch> {
    FindTimeFrom(s, 0)
  }

  /** A card reading "9:00 - 10:15" yields the two clocks around the dash. */
  lemma TimeRangeExample()
    ensures var s := "9:00 - 10:15";
      FindTimeRange(s) == Some(TimeMatch(0, 4, 7, 12)) && s[0..4] == "9:00" && s[7..12] == "10:15"
  {
    var s := "9:00 - 10:15";
    assert s[0] == '9' && s[1] == ':' && s[2] == '0' && s[3] == '0' && s[4] == ' ' && s[5] == '-' && s[6] == ' ';
    assert s[7] == '1' && s[8] == '0' && s[9] == ':' && s[10] == '1' && s[11] == '5' && |s| == 12;
    assert ClockEnd(s, 0) == Some(4);
    assert SpacesEnd(s, 5) == 5;
    assert SpacesEnd(s, 4) == 5;
    assert SpacesEnd(s, 7) == 7;
    assert SpacesEnd(s, 6) == 7;
    assert ClockEnd(s, 7) == Some(12);
    assert TimeMatchAt(s, 0) == Some(TimeMatch(0, 4, 7, 12));
  }

  // ---------------------------------------------------------------------------
  // scrape_calendar_with_details
  // ---------------------------------------------------------------------------

  /** A calendar event element: its text content and its `style` attribute, if any. */
  datatype EventElement = EventElement(textContent: string, style: Option<string>)

  /** What the in-page script reports for one element. */
  datatype EventData = EventData(
    index: nat, text: string, startTime: Option<string>, endTime: Option<string>, style: string, hasTime: bool)

  /** The script's record for the element at `index`. */
  function ReadEvent(index: nat, el: EventElement): (e: EventData)
    ensures e.index == index && e.text == JsTrim(el.textContent)
    ensures e.hasTime <==> FindTimeRange(e.text).Some?
    ensures e.hasTime <==> e.startTime.Some? && e.endTime.Some?
    ensures e.hasTime ==> IsClock(e.startTime.value) && IsClock(e.endTime.value)
  {
    var text := JsTrim(el.textContent);
    var style := el.style.GetOr("");
    match FindTimeRange(text)
    case None => EventData(index, text, None, None, style, false)
    case Some(m) =>
      EventData(index, text, Some(text[m.start..m.firstEnd]), Some(text[m.secondStart..m.end]), style, true)
  }

  function ReadEvents(elements: seq<EventElement>): (events: seq<EventData>)
    ensures |events| == |elements|
    ensures forall i :: 0 <= i < |events| ==> events[i] == ReadEvent(i, elements[i])
  {
    seq(|elements|, i requires 0 <= i < |elements| => ReadEvent(i, elements[i]))
  }

  /** `[e for e in events if e['hasTime']]`. */
  function TimedEvents(events: seq<EventData>): (timed: seq<EventData>)
    ensures |timed| <= |events|
    ensures forall j :: 0 <= j < |timed| ==> timed[j].hasTime
    decreases |events|
  {
    if events == [] then []
    else
      var last := events[|events| - 1];
      TimedEvents(events[..|events| - 1]) + (if last.hasTime then [last] else [])
  }

  /** The filter keeps exactly the events with a time range: each kept event is one of the input's, and none is lost. */
  lemma {:induction false} TimedEventsExact(events: seq<EventData>)
    ensures forall j :: 0 <= j < |TimedEvents(events)| ==> TimedEvents(events)[j] in events
    ensures forall i :: 0 <= i < |events| && events[i].hasTime ==> events[i] in TimedEvents(events)
    decreases |events|
  {
    if events != [] {
      var init := events[..|events| - 1];
      TimedEventsExact(init);
      assert forall i :: 0 <= i < |init| ==> init[i] == events[i];
    }
  }

  datatype ModalDetails = ModalDetails(
    day: Option<string>, className: Option<string>, program: Option<string>,
    startTime: Option<string>, endTime: Option<string>, capacity: Option<string>,
    trialClass: Option<string>, onlineClass: Option<string>, freeClass: Option<string>,
    teachers: Option<string>)

  /** Opening one event's modal: the details the modal script returned (None when it found no modal), or an exception. */
  datatype ModalOutcome = Opened(details: Option<ModalDetails>) | Failed

  /**
   * What the browser did for one calendar page:
   * - `loads`: navigating to the calendar and waiting for it worked;
   * - `coachSelected`: `select_coach` succeeded (only consulted when a coach is given);
   * - `eventsReady`: every call before the event loop succeeded -- the page screenshot,
   *   waiting for the event selector, the scan script and `query_selector_all`;
   * - `elements`: the elements the scan script read, in page order;
   * - `elementCount`: how many elements `query_selector_all` returned;
   * - `modal(i)`: what opening element i's modal did.
   */
  datatype CalendarPage = CalendarPage(
    loads: bool,
    coachSelected: bool,
    eventsReady: bool,
    elements: seq<EventElement>,
    elementCount: nat,
    modal: nat -> ModalOutcome)

  datatype DetailedEvent = DetailedEvent(event: EventData, modalDetails: Option<ModalDetails>, filteredCoach: Option<string>)

  datatype CalendarData = CalendarData(
    coach: Option<string>, events: seq<DetailedEvent>, totalEvents: nat, pageTitle: string, url: string, scrapedAt: string)

  const PageTitle := "BoxMagic"

  /** `if coach_name:` -- a coach is given and is not the empty string. */
  predicate CoachGiven(coach: Option<string>) {
    coach.Some? && coach.value != []
  }

  /**
   * The positions, among the first `n` timed events, whose details were extracted: those that
   * have a matching element (position below the element count) and whose modal opened.
   */
  function ProcessedIndices(n: nat, count: nat, modal: nat -> ModalOutcome): (idx: seq<nat>)
    ensures |idx| <= n && |idx| <= count
    ensures forall j :: 0 <= j < |idx| ==> idx[j] < n
    decreases n
  {
    if n == 0 then []
    else
      var prev := ProcessedIndices(n - 1, count, modal);
      if n - 1 < count && modal(n - 1).Opened? then prev + [n - 1] else prev
  }

  /** The processed positions are increasing and are exactly those with an element whose modal opened. */
  lemma {:induction false} ProcessedIndicesExact(n: nat, count: nat, modal: nat -> ModalOutcome)
    ensures var idx := ProcessedIndices(n, count, modal);
      && (forall j, k :: 0 <= j < k < |idx| ==> idx[j] < idx[k])
      && (forall i: nat :: i in idx <==> i < n && i < count && modal(i).Opened?)
    decreases n
  {
    if n > 0 {
      ProcessedIndicesExact(n - 1, count, modal);
      var prev := ProcessedIndices(n - 1, count, modal);
      assert forall j :: 0 <= j < |prev| ==> prev[j] < n - 1;
    }
  }

  /** The detailed events produced for the first `n` timed events. */
  function Detailed(valid: seq<EventData>, n: nat, count: nat, modal: nat -> ModalOutcome, coach: Option<string>)
    : (events: seq<DetailedEvent>)
    requires n <= |valid|
    ensures |events| <= n && |events| <= count
    ensures forall j :: 0 <= j < |events| ==> events[j].filteredCoach == coach && events[j].event in valid
    decreases n
  {
    if n == 0 then []
    else
      var prev := Detailed(valid, n - 1, count, modal, coach);
      if n - 1 < count && modal(n - 1).Opened? then
        prev + [DetailedEvent(valid[n - 1], modal(n - 1).details, coach)]
      else prev
  }

  /**
   * Output event `j` is the timed event at the `j`-th processed position, paired with that
   * position's modal details: the i-th timed event goes with element i of the unfiltered list.
   */
  lemma {:induction false} DetailedAlignment(
    valid: seq<EventData>, n: nat, count: nat, modal: nat -> ModalOutcome, coach: Option<string>)
    requires n <= |valid|
    ensures var idx := ProcessedIndices(n, count, modal);
      var events := Detailed(valid, n, count, modal, coach);
      && |events| == |idx|
      && forall j :: 0 <= j < |idx| ==>
           modal(idx[j]).Opened? && events[j] == DetailedEvent(valid[idx[j]], modal(idx[j]).details, coach)
    decreases n
  {
    if n > 0 {
      DetailedAlignment(valid, n - 1, count, modal, coach);
    }
  }

  /**
   * The pairing the loop evidently intends: each timed event opens the element it was read
   * from (its `index`), not the element at its position among the timed events.
   */
  function DetailedByIndex(valid: seq<EventData>, n: nat, count: nat, modal: nat -> ModalOutcome, coach: Option<string>)
    : (events: seq<DetailedEvent>)
    requires n <= |valid|
    ensures |events| <= n
    ensures forall j :: 0 <= j < |events| ==> events[j].filteredCoach == coach && events[j].event.index < count
    decreases n
  {
    if n == 0 then []
    else
      var prev := DetailedByIndex(valid, n - 1, count, modal, coach);
      var e := valid[n - 1];
      if e.index < count && modal(e.index).Opened? then
        prev + [DetailedEvent(e, modal(e.index).details, coach)]
      else prev
  }

  /** With the intended pairing, every event's details come from the modal of its own element. */
  lemma {:induction false} DetailsFromOwnElement(
    valid: seq<EventData>, n: nat, count: nat, modal: nat -> ModalOutcome, coach: Option<string>)
    requires n <= |valid|
    ensures forall d :: d in DetailedByIndex(valid, n, count, modal, coach) ==>
      && d.event in valid[..n] && d.filteredCoach == coach
      && d.event.index < count && modal(d.event.index) == Opened(d.modalDetails)
    decreases n
  {
    if n > 0 {
      DetailsFromOwnElement(valid, n - 1, count, modal, coach);
      assert valid[..n] == valid[..n - 1] + [valid[n - 1]];
    }
  }

  /**
   * Nothing the intended pairing should keep is lost: every timed event whose element exists
   * and whose modal opened is returned, with that modal's details. A failure on one element
   * therefore never stops the events after it.
   */
  lemma {:induction false} DetailedByIndexComplete(
    valid: seq<EventData>, n: nat, count: nat, modal: nat -> ModalOutcome, coach: Option<string>, i: nat)
    requires i < n <= |valid|
    requires valid[i].index < count && modal(valid[i].index).Opened?
    ensures DetailedEvent(valid[i], modal(valid[i].index).details, coach) in DetailedByIndex(valid, n, count, modal, coach)
    decreases n
  {
    if i < n - 1 {
      DetailedByIndexComplete(valid, n - 1, count, modal, coach, i);
    }
  }

  /** When every event's index is its position, the loop as written and the intended pairing agree. */
  lemma {:induction false} PairingsAgreeWhenPositionsMatch(
    valid: seq<EventData>, n: nat, count: nat, modal: nat -> ModalOutcome, coach: Option<string>)
    requires n <= |valid|
    requires forall i :: 0 <= i < n ==> valid[i].index == i
    ensures Detailed(valid, n, count, modal, coach) == DetailedByIndex(valid, n, count, modal, coach)
    decreases n
  {
    if n > 0 {
      PairingsAgreeWhenPositionsMatch(valid, n - 1, count, modal, coach);
    }
  }

  /** Filtering a list whose events all have a time range keeps it whole. */
  lemma AllTimedKept(events: seq<EventData>)
    requires forall i :: 0 <= i < |events| ==> events[i].hasTime
    ensures TimedEvents(events) == events
  {
    AllTimedPrefixKept(events, |events|);
    assert events[..|events|] == events;
  }

  lemma {:induction false} AllTimedPrefixKept(events: seq<EventData>, n: nat)
    requires n <= |events|
    requires forall i :: 0 <= i < |events| ==> events[i].hasTime
    ensures TimedEvents(events[..n]) == events[..n]
    decreases n
  {
    if n > 0 {
      AllTimedPrefixKept(events, n - 1);
      var prefix := events[..n];
      assert prefix[..n - 1] == events[..n - 1];
      assert prefix[n - 1].hasTime;
      assert prefix == events[..n - 1] + [prefix[n - 1]];
    }
  }

  /** So on a page where every card shows a time range the positions match and the pairing is right. */
  lemma AllTimedPairsCorrectly(page: CalendarPage, coach: Option<string>)
    requires forall i :: 0 <= i < |page.elements| ==> ReadEvent(i, page.elements[i]).hasTime
    ensures var valid := TimedEvents(ReadEvents(page.elements));
      Detailed(valid, |valid|, page.elementCount, page.modal, coach)
        == DetailedByIndex(valid, |valid|, page.elementCount, page.modal, coach)
  {
    var events := ReadEvents(page.elements);
    AllTimedKept(events);
    PairingsAgreeWhenPositionsMatch(events, |events|, page.elementCount, page.modal, coach);
  }

  /** A card without a time range followed by one with a time range. */
  const UntimedThenTimed: seq<EventElement> := [EventElement("Yoga", None), EventElement("9:00 - 10:15", None)]

  /**
   * The loop as written pairs by position: on the page `UntimedThenTimed` the second card's
   * event is reported with the details of the first card's modal, where the intended pairing
   * uses the second card's.
   */
  lemma AsWrittenPairsByPosition(modal: nat -> ModalOutcome, coach: Option<string>)
    requires modal(0).Opened? && modal(1).Opened?
    ensures var valid := TimedEvents(ReadEvents(UntimedThenTimed));
      && valid == [ReadEvent(1, UntimedThenTimed[1])]
      && Detailed(valid, 1, 2, modal, coach) == [DetailedEvent(valid[0], modal(0).details, coach)]
      && DetailedByIndex(valid, 1, 2, modal, coach) == [DetailedEvent(valid[0], modal(1).details, coach)]
  {
    UntimedThenTimedFiltered();
    var valid := TimedEvents(ReadEvents(UntimedThenTimed));
    assert Detailed(valid, 0, 2, modal, coach) == [];
    assert DetailedByIndex(valid, 0, 2, modal, coach) == [];
    assert valid[0].index == 1;
  }

  /** Only the second card of `UntimedThenTimed` shows a time range. */
  lemma UntimedThenTimedFiltered()
    ensures TimedEvents(ReadEvents(UntimedThenTimed)) == [ReadEvent(1, UntimedThenTimed[1])]
  {
    var events := ReadEvents(UntimedThenTimed);
    UntimedThenTimedRead();
    assert events[..1][..0] == [];
    assert events[..|events| - 1] == events[..1];
  }

  /** The first card of `UntimedThenTimed` shows no time range and the second one does. */
  lemma UntimedThenTimedRead()
    ensures var events := ReadEvents(UntimedThenTimed);
      |events| == 2 && !events[0].hasTime && events[1].hasTime && events[1] == ReadEvent(1, UntimedThenTimed[1])
  {
    var els := UntimedThenTimed;
    TrimKeepsUnpadded(els[0].textContent, IsJsSpace);
    TrimKeepsUnpadded(els[1].textContent, IsJsSpace);
    NoDigitsNoTime(els[0].textContent, 0);
    TimeRangeExample();
  }

  /** A text without digits has no time range. */
  lemma {:induction false} NoDigitsNoTime(s: string, p: nat)
    requires p <= |s|
    requires forall k :: 0 <= k < |s| ==> !IsDigit(s[k])
    ensures FindTimeFrom(s, p).None?
    decreases |s| - p
  {
    assert !DigitAt(s, p);
    if p < |s| {
      NoDigitsNoTime(s, p + 1);
    }
  }

  /** `modal` with the element at `f` failing instead. */
  function FailAt(modal: nat -> ModalOutcome, f: nat): nat -> ModalOutcome {
    (i: nat) => if i == f then Failed else modal(i)
  }

  /** `s` without the events read from element `f`. */
  function DropElement(s: seq<DetailedEvent>, f: nat): (r: seq<DetailedEvent>)
    ensures forall d :: d in r <==> d in s && d.event.index != f
  {
    if s == [] then []
    else DropElement(s[..|s| - 1], f) + (if s[|s| - 1].event.index == f then [] else [s[|s| - 1]])
  }

  /** Dropping the events of element `f` from a list with one more event at its end. */
  lemma DropElementAppend(prev: seq<DetailedEvent>, d: DetailedEvent, f: nat)
    ensures d.event.index == f ==> DropElement(prev + [d], f) == DropElement(prev, f)
    ensures d.event.index != f ==> DropElement(prev + [d], f) == DropElement(prev, f) + [d]
  {
    var cur := prev + [d];
    assert cur[..|cur| - 1] == prev;
    assert DropElement(prev, f) + [] == DropElement(prev, f);
  }

  /**
   * Failure isolation: an exception while processing the element at `f` only removes the
   * event read from it; every other event, later ones included, is processed exactly as before.
   */
  lemma {:induction false} FailureIsolated(
    valid: seq<EventData>, n: nat, count: nat, modal: nat -> ModalOutcome, coach: Option<string>, f: nat)
    requires n <= |valid|
    ensures DetailedByIndex(valid, n, count, FailAt(modal, f), coach)
         == DropElement(DetailedByIndex(valid, n, count, modal, coach), f)
  {
    FailureIsolatedFor(valid, n, count, modal, FailAt(modal, f), coach, f);
  }

  /** Running the first `n` timed events with `failed` drops exactly element `f`'s event from the run with `modal`. */
  predicate Isolated(
    valid: seq<EventData>, n: nat, count: nat, modal: nat -> ModalOutcome, failed: nat -> ModalOutcome,
    coach: Option<string>, f: nat)
    requires n <= |valid|
  {
    DetailedByIndex(valid, n, count, failed, coach) == DropElement(DetailedByIndex(valid, n, count, modal, coach), f)
  }

  /** Failure isolation for any outcome oracle that fails at `f` and agrees with `modal` elsewhere. */
  lemma {:induction false} FailureIsolatedFor(
    valid: seq<EventData>, n: nat, count: nat, modal: nat -> ModalOutcome, failed: nat -> ModalOutcome,
    coach: Option<string>, f: nat)
    requires n <= |valid|
    requires forall i :: failed(i) == if i == f then Failed else modal(i)
    ensures Isolated(valid, n, count, modal, failed, coach, f)
    decreases n
  {
    if n > 0 {
      FailureIsolatedFor(valid, n - 1, count, modal, failed, coach, f);
      IsolatedExtends(valid, n, count, modal, failed, coach, f);
    }
  }

  /** Failure isolation carries over from the first `n - 1` timed events to the first `n`. */
  lemma IsolatedExtends(
    valid: seq<EventData>, n: nat, count: nat, modal: nat -> ModalOutcome, failed: nat -> ModalOutcome,
    coach: Option<string>, f: nat)
    requires 0 < n <= |valid|
    requires forall i :: failed(i) == if i == f then Failed else modal(i)
    requires Isolated(valid, n - 1, count, modal, failed, coach, f)
    ensures Isolated(valid, n, count, modal, failed, coach, f)
  {
    var e := valid[n - 1];
    var kept := e.index < count && modal(e.index).Opened?;
    var d := DetailedEvent(e, if kept then modal(e.index).details else None, coach);
    DetailedByIndexLast(valid, n, count, modal, coach);
    DetailedByIndexLast(valid, n, count, failed, coach);
    assert failed(e.index) == if e.index == f then Failed else modal(e.index);
    IsolationStep(
      DetailedByIndex(valid, n - 1, count, modal, coach), DetailedByIndex(valid, n - 1, count, failed, coach),
      DetailedByIndex(valid, n, count, modal, coach), DetailedByIndex(valid, n, count, failed, coach),
      d, kept, f);
  }

  /** The last timed event is appended exactly when its element exists and its modal opened. */
  lemma DetailedByIndexLast(valid: seq<EventData>, n: nat, count: nat, modal: nat -> ModalOutcome, coach: Option<string>)
    requires 0 < n <= |valid|
    ensures var e := valid[n - 1];
      DetailedByIndex(valid, n, count, modal, coach)
        == if e.index < count && modal(e.index).Opened?
           then DetailedByIndex(valid, n - 1, count, modal, coach) + [DetailedEvent(e, modal(e.index).details, coach)]
           else DetailedByIndex(valid, n - 1, count, modal, coach)
  {
  }

  /**
   * One step of failure isolation, on the lists alone: if the lists so far satisfy it, and
   * the next event `d` is appended to the normal run when `kept` and to the failing run
   * unless it comes from element `f`, then the extended lists satisfy it too.
   */
  lemma IsolationStep(
    prev: seq<DetailedEvent>, prevFailed: seq<DetailedEvent>, full: seq<DetailedEvent>, fullFailed: seq<DetailedEvent>,
    d: DetailedEvent, kept: bool, f: nat)
    requires prevFailed == DropElement(prev, f)
    requires full == if kept then prev + [d] else prev
    requires fullFailed == if kept && d.event.index != f then prevFailed + [d] else prevFailed
    ensures fullFailed == DropElement(full, f)
  {
    if kept {
      DropElementAppend(prev, d, f);
    }
  }

  /** Event records listed in the order of their elements. */
  predicate IndicesIncreasing(s: seq<EventData>) {
    forall i, j :: 0 <= i < j < |s| ==> s[i].index < s[j].index
  }

  /** Filtering keeps the events in element order. */
  lemma {:induction false} TimedEventsIncreasing(events: seq<EventData>)
    requires IndicesIncreasing(events)
    ensures IndicesIncreasing(TimedEvents(events))
    decreases |events|
  {
    if events != [] {
      var init := events[..|events| - 1];
      var last := events[|events| - 1];
      TimedEventsIncreasing(init);
      TimedEventsExact(init);
      var prev := TimedEvents(init);
      assert forall j :: 0 <= j < |prev| ==> prev[j].index < last.index by {
        forall j | 0 <= j < |prev| ensures prev[j].index < last.index {
          var k :| 0 <= k < |init| && init[k] == prev[j];
          assert events[k] == init[k];
        }
      }
    }
  }

  /** Detailed events listed in the order of their elements. */
  predicate InElementOrder(r: seq<DetailedEvent>) {
    forall i, j :: 0 <= i < j < |r| ==> r[i].event.index < r[j].event.index
  }

  /** The detailed events, too, are in element order. */
  lemma {:induction false} DetailedByIndexIncreasing(
    valid: seq<EventData>, n: nat, count: nat, modal: nat -> ModalOutcome, coach: Option<string>)
    requires n <= |valid| && IndicesIncreasing(valid)
    ensures InElementOrder(DetailedByIndex(valid, n, count, modal, coach))
    decreases n
  {
    if n > 0 {
      DetailedByIndexIncreasing(valid, n - 1, count, modal, coach);
      DetailsFromOwnElement(valid, n - 1, count, modal, coach);
      var prev := DetailedByIndex(valid, n - 1, count, modal, coach);
      var e := valid[n - 1];
      assert forall j :: 0 <= j < |prev| ==> prev[j].event.index < e.index by {
        forall j | 0 <= j < |prev| ensures prev[j].event.index < e.index {
          assert prev[j] in prev;
          var k :| 0 <= k < n - 1 && valid[..n - 1][k] == prev[j].event;
          assert valid[k] == prev[j].event;
        }
      }
      if e.index < count && modal(e.index).Opened? {
        var r := prev + [DetailedEvent(e, modal(e.index).details, coach)];
        assert DetailedByIndex(valid, n, count, modal, coach) == r;
        forall i, j | 0 <= i < j < |r| ensures r[i].event.index < r[j].event.index {
          assert r[i] == prev[i];
          if j < |prev| {
            assert r[j] == prev[j];
            assert prev[i].event.index < prev[j].event.index;
          } else {
            assert r[j].event == e;
            assert prev[i].event.index < e.index;
          }
        }
      }
    }
  }

  /** Events with strictly increasing element indices, all below `bound`, number at most `bound`. */
  lemma {:induction false} IncreasingIndicesBounded(r: seq<DetailedEvent>, bound: nat)
    requires InElementOrder(r)
    requires forall j :: 0 <= j < |r| ==> r[j].event.index < bound
    ensures |r| <= bound
    decreases |r|
  {
    if r != [] {
      var init := r[..|r| - 1];
      var last := r[|r| - 1];
      assert forall j :: 0 <= j < |init| ==> init[j].event.index < last.event.index by {
        forall j | 0 <= j < |init| ensures init[j].event.index < last.event.index {
          assert init[j] == r[j];
        }
      }
      IncreasingIndicesBounded(init, last.event.index);
    }
  }

  /**
   * What `scrape_calendar_with_details(coach_name)` returns, with each event paired with its
   * own element (see `DetailedByIndex`); None stands for `{}`.
   */
  function ScrapeCalendar(loggedIn: bool, coach: Option<string>, page: CalendarPage, url: string, now: string)
    : (r: Option<CalendarData>)
    ensures r.None? <==> !loggedIn || !page.loads || (CoachGiven(coach) && !page.coachSelected) || !page.eventsReady
    ensures r.Some? ==> var d := r.value;
      d.coach == coach && d.pageTitle == PageTitle && d.url == url && d.scrapedAt == now && d.totalEvents == |d.events|
  {
    if !loggedIn || !page.loads || (CoachGiven(coach) && !page.coachSelected) || !page.eventsReady then None
    else
      var events := PageEvents(page, coach);
      Some(CalendarData(coach, events, |events|, PageTitle, url, now))
  }

  /** The detailed events of a loaded page: its timed events, each with its own element's modal details. */
  function PageEvents(page: CalendarPage, coach: Option<string>): seq<DetailedEvent> {
    var valid := TimedEvents(ReadEvents(page.elements));
    DetailedByIndex(valid, |valid|, page.elementCount, page.modal, coach)
  }

  /**
   * Every event of a loaded page has a time range, was read from the page, is tagged with the
   * requested coach and holds the details of its own element's modal.
   */
  lemma PageEventsFromOwnElements(page: CalendarPage, coach: Option<string>)
    ensures var r := PageEvents(page, coach);
      forall j :: 0 <= j < |r| ==>
        && r[j].filteredCoach == coach && r[j].event.hasTime
        && r[j].event in ReadEvents(page.elements)
        && r[j].event.index < page.elementCount
        && page.modal(r[j].event.index) == Opened(r[j].modalDetails)
  {
    var events := ReadEvents(page.elements);
    var valid := TimedEvents(events);
    var r := DetailedByIndex(valid, |valid|, page.elementCount, page.modal, coach);
    DetailsFromOwnElement(valid, |valid|, page.elementCount, page.modal, coach);
    assert valid[..|valid|] == valid;
    TimedEventsExact(events);
    forall j | 0 <= j < |r|
      ensures r[j].event in events && r[j].event.hasTime
    {
      assert r[j] in r;
      var k :| 0 <= k < |valid| && valid[k] == r[j].event;
    }
  }

  /**
   * Every card of a loaded page that shows a time range, has a matching element and whose
   * modal opened is among the page's events, with its own modal's details.
   */
  lemma PageEventsComplete(page: CalendarPage, coach: Option<string>, i: nat)
    requires i < |page.elements| && i < page.elementCount && page.modal(i).Opened?
    requires ReadEvents(page.elements)[i].hasTime
    ensures DetailedEvent(ReadEvents(page.elements)[i], page.modal(i).details, coach) in PageEvents(page, coach)
  {
    var events := ReadEvents(page.elements);
    var valid := TimedEvents(events);
    TimedEventsExact(events);
    assert events[i] in valid;
    var k :| 0 <= k < |valid| && valid[k] == events[i];
    assert valid[k].index == i;
    DetailedByIndexComplete(valid, |valid|, page.elementCount, page.modal, coach, k);
  }

  /** The events of a loaded page are in page order, at most one per timed event and per element. */
  lemma PageEventsOrdered(page: CalendarPage, coach: Option<string>)
    ensures var r := PageEvents(page, coach);
      && |r| <= |TimedEvents(ReadEvents(page.elements))|
      && |r| <= page.elementCount
      && InElementOrder(r)
  {
    var events := ReadEvents(page.elements);
    var valid := TimedEvents(events);
    var r := DetailedByIndex(valid, |valid|, page.elementCount, page.modal, coach);
    assert r == PageEvents(page, coach);
    DetailedByIndexLength(valid, |valid|, page.elementCount, page.modal, coach);
    PageEventsFromOwnElements(page, coach);
    assert IndicesIncreasing(events);
    TimedEventsIncreasing(events);
    DetailedByIndexIncreasing(valid, |valid|, page.elementCount, page.modal, coach);
    IncreasingIndicesBounded(r, page.elementCount);
  }

  /**
   * Only events with a time range are returned, each read from the page, tagged with the
   * requested coach and holding the details of its own element's modal, in page order; there
   * are no more of them than timed events or event elements. Conversely every card with a
   * time range, a matching element and a modal that opened is returned.
   */
  lemma ScrapedEventsAreTimed(loggedIn: bool, coach: Option<string>, page: CalendarPage, url: string, now: string)
    requires ScrapeCalendar(loggedIn, coach, page, url, now).Some?
    ensures var d := ScrapeCalendar(loggedIn, coach, page, url, now).value;
      && |d.events| <= page.elementCount
      && |d.events| <= |TimedEvents(ReadEvents(page.elements))|
      && (forall j :: 0 <= j < |d.events| ==>
           && d.events[j].filteredCoach == coach && d.events[j].event.hasTime
           && d.events[j].event in ReadEvents(page.elements)
           && d.events[j].event.index < page.elementCount
           && page.modal(d.events[j].event.index) == Opened(d.events[j].modalDetails))
      && (forall i, j :: 0 <= i < j < |d.events| ==> d.events[i].event.index < d.events[j].event.index)
      && (forall i :: 0 <= i < |page.elements| && i < page.elementCount && page.modal(i).Opened?
                      && ReadEvents(page.elements)[i].hasTime ==>
            DetailedEvent(ReadEvents(page.elements)[i], page.modal(i).details, coach) in d.events)
  {
    PageEventsFromOwnElements(page, coach);
    PageEventsOrdered(page, coach);
    forall i | 0 <= i < |page.elements| && i < page.elementCount && page.modal(i).Opened?
               && ReadEvents(page.elements)[i].hasTime
      ensures DetailedEvent(ReadEvents(page.elements)[i], page.modal(i).details, coach) in PageEvents(page, coach)
    {
      PageEventsComplete(page, coach, i);
    }
  }

  /** At most one detailed event per timed event. */
  lemma {:induction false} DetailedByIndexLength(
    valid: seq<EventData>, n: nat, count: nat, modal: nat -> ModalOutcome, coach: Option<string>)
    requires n <= |valid|
    ensures |DetailedByIndex(valid, n, count, modal, coach)| <= n
    decreases n
  {
    if n > 0 {
      DetailedByIndexLength(valid, n - 1, count, modal, coach);
    }
  }

  /**
   * The `for idx, event_data in enumerate(valid_events)` loop, each event opening its own
   * element when there is one; a failure while doing so skips just that event.
   */
  method ProcessEvents(valid: seq<EventData>, count: nat, modal: nat -> ModalOutcome, coach: Option<string>)
    returns (detailed: seq<DetailedEvent>)
    ensures detailed == DetailedByIndex(valid, |valid|, count, modal, coach)
  {
    detailed := [];
    var idx := 0;
    while idx < |valid|
      invariant 0 <= idx <= |valid|
      invariant detailed == DetailedByIndex(valid, idx, count, modal, coach)
    {
      var e := valid[idx];
      if e.index < count {
        match modal(e.index) {
          case Opened(details) =>
            detailed := detailed + [DetailedEvent(e, details, coach)];
          case Failed =>
        }
      }
      idx := idx + 1;
    }
  }

  /** The method: early returns, then a loop over the timed events absorbing each event's failure. */
  method ScrapeCalendarWithDetails(loggedIn: bool, coach: Option<string>, page: CalendarPage, url: string, now: string)
    returns (r: Option<CalendarData>)
    ensures r == ScrapeCalendar(loggedIn, coach, page, url, now)
  {
    if !loggedIn {
      return None;
    }
    if !page.loads {
      return None;
    }
    if CoachGiven(coach) && !page.coachSelected {
      return None;
    }
    if !page.eventsReady {
      return None;
    }
    var valid := TimedEvents(ReadEvents(page.elements));
    var detailed := ProcessEvents(valid, page.elementCount, page.modal, coach);
    return Some(CalendarData(coach, detailed, |detailed|, PageTitle, url, now));
  }

  /** Without a login the scrape returns `{}` whatever the page would have shown. */
  lemma NotLoggedInScrapesNothing(coach: Option<string>, page: CalendarPage, url: string, now: string)
    ensures ScrapeCalendar(false, coach, page, url, now).None?
  {
  }

  // ---------------------------------------------------------------------------
  // scrape_all_coaches
  // ---------------------------------------------------------------------------

  datatype AllCoachesData = AllCoachesData(scrapedAt: string, totalCoaches: nat, coaches: map<string, CalendarData>)

  /** The result of scraping each coach found, in order. */
  function CoachScrapes(coaches: seq<string>, loggedIn: bool, pages: nat -> CalendarPage, url: string, now: string)
    : (results: seq<Option<CalendarData>>)
    ensures |results| == |coaches|
    ensures forall k :: 0 <= k < |coaches| && results[k].Some? ==> results[k].value.coach == Some(coaches[k])
    ensures !loggedIn ==> forall k :: 0 <= k < |coaches| ==> results[k].None?
  {
    var results := seq(|coaches|, k requires 0 <= k < |coaches| => ScrapeCalendar(loggedIn, Some(coaches[k]), pages(k), url, now));
    assert forall k :: 0 <= k < |coaches| ==> results[k] == ScrapeCalendar(loggedIn, Some(coaches[k]), pages(k), url, now);
    results
  }

  /**
   * The `coaches` map after the first `n` coaches: each non-empty result is stored under its
   * coach's name, so every coach with a non-empty result has an entry.
   */
  function CoachMap(coaches: seq<string>, results: seq<Option<CalendarData>>, n: nat): (m: map<string, CalendarData>)
    requires |results| == |coaches| && n <= |coaches|
    ensures forall k :: 0 <= k < n && results[k].Some? ==> coaches[k] in m
    decreases n
  {
    if n == 0 then map[]
    else
      var m := CoachMap(coaches, results, n - 1);
      match results[n - 1]
      case Some(data) => m[coaches[n - 1] := data]
      case None => m
  }

  /**
   * A coach listed twice keeps its last non-empty result: the entry is result `k` of that
   * coach, and every later result for it was empty.
   */
  lemma {:induction false} LastScrapeWins(coaches: seq<string>, results: seq<Option<CalendarData>>, n: nat, c: string)
    requires |results| == |coaches| && n <= |coaches|
    requires c in CoachMap(coaches, results, n)
    ensures exists k :: 0 <= k < n && coaches[k] == c && results[k] == Some(CoachMap(coaches, results, n)[c])
              && forall j :: k < j < n && coaches[j] == c ==> results[j].None?
    decreases n
  {
    var m := CoachMap(coaches, results, n);
    if coaches[n - 1] == c && results[n - 1].Some? {
      assert m[c] == results[n - 1].value;
    } else {
      var prev := CoachMap(coaches, results, n - 1);
      assert c in prev && m[c] == prev[c];
      LastScrapeWins(coaches, results, n - 1, c);
      var k :| 0 <= k < n - 1 && coaches[k] == c && results[k] == Some(prev[c])
              && forall j :: k < j < n - 1 && coaches[j] == c ==> results[j].None?;
      assert forall j :: k < j < n && coaches[j] == c ==> results[j].None?;
    }
  }

  /** Every entry of the scraped map is the calendar of the coach it is stored under. */
  lemma EntriesBelongToTheirCoach(coaches: seq<string>, loggedIn: bool, pages: nat -> CalendarPage, url: string, now: string, c: string)
    requires c in CoachMap(coaches, CoachScrapes(coaches, loggedIn, pages, url, now), |coaches|)
    ensures CoachMap(coaches, CoachScrapes(coaches, loggedIn, pages, url, now), |coaches|)[c].coach == Some(c)
  {
    var results := CoachScrapes(coaches, loggedIn, pages, url, now);
    var m := CoachMap(coaches, results, |coaches|);
    LastScrapeWins(coaches, results, |coaches|, c);
    var k :| 0 <= k < |coaches| && coaches[k] == c && results[k] == Some(m[c]);
    var r := ScrapeCalendar(loggedIn, Some(c), pages(k), url, now);
    assert results[k] == r;
  }

  /** The `for coach in coaches` loop of `scrape_all_coaches`. */
  method ScrapeEach(coaches: seq<string>, loggedIn: bool, pages: nat -> CalendarPage, url: string, now: string)
    returns (found: map<string, CalendarData>)
    ensures found == CoachMap(coaches, CoachScrapes(coaches, loggedIn, pages, url, now), |coaches|)
  {
    ghost var results := CoachScrapes(coaches, loggedIn, pages, url, now);
    found := map[];
    var k := 0;
    while k < |coaches|
      invariant 0 <= k <= |coaches|
      invariant found == CoachMap(coaches, results, k)
    {
      var data := ScrapeCalendarWithDetails(loggedIn, Some(coaches[k]), pages(k), url, now);
      assert data == results[k];
      if data.Some? {
        found := found[coaches[k] := data.value];
      }
      k := k + 1;
    }
  }

  /**
   * `scrape_all_coaches()`: `{}` (None) when no coach is found; otherwise `totalCoaches`
   * counts every coach found while the map holds only the coaches whose scrape returned data.
   */
  method ScrapeAllCoaches(loggedIn: bool, dropdown: Option<seq<CoachOption>>, pages: nat -> CalendarPage, url: string, now: string)
    returns (r: Option<AllCoachesData>)
    ensures var coaches := AvailableCoaches(dropdown);
      && (r.None? <==> coaches == [])
      && (r.Some? ==> r.value.totalCoaches == |coaches|
                      && r.value.coaches == CoachMap(coaches, CoachScrapes(coaches, loggedIn, pages, url, now), |coaches|))
  {
    var coaches := AvailableCoaches(dropdown);
    if coaches == [] {
      return None;
    }
    var found := ScrapeEach(coaches, loggedIn, pages, url, now);
    return Some(AllCoachesData(now, |coaches|, found));
  }

  /** Without a login every coach is counted but none gets an entry. */
  lemma {:induction false} NotLoggedInMapsNoCoach(coaches: seq<string>, n: nat, pages: nat -> CalendarPage, url: string, now: string)
    requires n <= |coaches|
    ensures CoachMap(coaches, CoachScrapes(coaches, false, pages, url, now), n) == map[]
    decreases n
  {
    if n > 0 {
      NotLoggedInMapsNoCoach(coaches, n - 1, pages, url, now);
      var results := CoachScrapes(coaches, false, pages, url, now);
      assert results[n - 1] == ScrapeCalendar(false, Some(coaches[n - 1]), pages(n - 1), url, now);
    }
  }
}
