/**
 * The composite class-id rules the scraper's test-suite writes out: the
 * `clase_id-dias_clases_id` identifier and its two regular expressions, how a class
 * record's id is derived, how a roster with a missing `alumnos` list is read, the shape
 * of DD-MM-YYYY date strings, and the keys every class and date record carries.
 */
module ClassIds {
  import opened Optional
  import opened Json
  import opened Text

  // ---------------------------------------------------------------------------
  // `re.match(r'^\d+-\d+$', s)`
  // ---------------------------------------------------------------------------

  /** What Python's `$` sees as the end: `s` with at most one final newline dropped. */
  function BeforeFinalNewline(s: string): (t: string)
    ensures t == s || (s == t + "\n")
  {
    if |s| > 0 && s[|s| - 1] == '\n' then s[..|s| - 1] else s
  }

  /** `t` is exactly one or more digits, a hyphen, one or more digits. */
  ghost predicate IsDigitsDashDigits(t: string) {
    exists i :: 0 < i < |t| - 1 && t[i] == '-' && IsDigits(t[..i]) && IsDigits(t[i + 1..])
  }

  /** The end of the run of digits starting at `k`. */
  function RunEnd(s: string, k: nat): (e: nat)
    requires k <= |s|
    ensures k <= e <= |s|
    ensures forall j :: k <= j < e ==> IsDigit(s[j])
    ensures e < |s| ==> !IsDigit(s[e])
    decreases |s| - k
  {
    if k < |s| && IsDigit(s[k]) then RunEnd(s, k + 1) else k
  }

  /** In a `\d+-\d+` string the hyphen is where the first digit run ends. */
  lemma DashEndsFirstRun(t: string, i: nat)
    requires 0 < i < |t| - 1 && t[i] == '-' && IsDigits(t[..i]) && IsDigits(t[i + 1..])
    ensures RunEnd(t, 0) == i && RunEnd(t, i + 1) == |t|
  {
    assert forall j :: 0 <= j < i ==> t[..i][j] == t[j];
    assert forall j :: i + 1 <= j < |t| ==> t[i + 1..][j - i - 1] == t[j];
  }

  /** `re.match(r'^\d+-\d+$', s)` succeeds: the match-or-not of the identifier check. */
  function IsCompositeId(s: string): (ok: bool)
    ensures ok <==> IsDigitsDashDigits(BeforeFinalNewline(s))
  {
    var t := BeforeFinalNewline(s);
    var d := RunEnd(t, 0);
    var ok := 0 < d < |t| - 1 && t[d] == '-' && RunEnd(t, d + 1) == |t|;
    if ok then
      assert IsDigits(t[..d]) && IsDigits(t[d + 1..]);
      ok
    else
      assert !IsDigitsDashDigits(t) by {
        if i :| 0 < i < |t| - 1 && t[i] == '-' && IsDigits(t[..i]) && IsDigits(t[i + 1..]) {
          DashEndsFirstRun(t, i);
        }
      }
      ok
  }

  /** The test-suite's first accepted identifier. */
  lemma AcceptsFirstExample()
    ensures IsCompositeId("104996-237092")
  {
    var x, y := "104996", "237092";
    assert IsDigits(x) && IsDigits(y);
    DigitsDashDigitsAccepted(x, y);
    assert x + "-" + y == "104996-237092";
  }

  /** The test-suite's second accepted identifier. */
  lemma AcceptsSecondExample()
    ensures IsCompositeId("105112-237418")
  {
    var x, y := "105112", "237418";
    assert IsDigits(x) && IsDigits(y);
    DigitsDashDigitsAccepted(x, y);
    assert x + "-" + y == "105112-237418";
  }

  /** The identifiers without a hyphen that the test-suite rejects. */
  lemma RejectedWithoutHyphen()
    ensures !IsCompositeId("104996")
    ensures !IsCompositeId("104996237092")
    ensures !IsCompositeId("invalid")
  {
    NoHyphenRejected("104996");
    NoHyphenRejected("104996237092");
    NoHyphenRejected("invalid");
  }

  /** The identifiers with letters beside the hyphen that the test-suite rejects. */
  lemma RejectedWithLetters()
    ensures !IsCompositeId("abc-237092")
    ensures !IsCompositeId("104996-abc")
  {
    var left, right := "abc-237092", "104996-abc";
    assert left[..3][0] == 'a';
    NonDigitAroundHyphenRejected(left, 3);
    assert right[7..][0] == 'a';
    NonDigitAroundHyphenRejected(right, 6);
  }

  /** Two digit runs joined by a hyphen pass the check. */
  lemma DigitsDashDigitsAccepted(x: string, y: string)
    requires IsDigits(x) && IsDigits(y)
    ensures IsCompositeId(x + "-" + y)
  {
    var s := x + "-" + y;
    assert BeforeFinalNewline(s) == s;
    assert s[..|x|] == x && s[|x| + 1..] == y && s[|x|] == '-';
  }

  /** A string without a hyphen (and no final newline) is rejected. */
  lemma NoHyphenRejected(s: string)
    requires |s| > 0 && s[|s| - 1] != '\n'
    requires forall k :: 0 <= k < |s| ==> s[k] != '-'
    ensures !IsCompositeId(s)
  {
  }

  /** A string whose only hyphen is at `h` but has a non-digit right before or after it is rejected. */
  lemma NonDigitAroundHyphenRejected(s: string, h: nat)
    requires h < |s| && s[h] == '-' && s[|s| - 1] != '\n'
    requires forall k :: 0 <= k < |s| && k != h ==> s[k] != '-'
    requires !IsDigits(s[..h]) || !IsDigits(s[h + 1..])
    ensures !IsCompositeId(s)
  {
  }

  /** Python's `$` also matches before a single final newline, so such an id passes the check. */
  lemma TrailingNewlineAccepted(t: string)
    requires IsCompositeId(t) && BeforeFinalNewline(t) == t
    ensures IsCompositeId(t + "\n")
  {
    assert BeforeFinalNewline(t + "\n") == t;
  }

  // ---------------------------------------------------------------------------
  // `re.search(r"(\d+-\d+)", s).group(1)`
  // ---------------------------------------------------------------------------

  datatype Span = Span(start: nat, end: nat)

  /** The regex matches when started at `p`: digits, then a hyphen, then digits (both runs greedy). */
  predicate MatchStartsAt(s: string, p: nat) {
    && p < |s|
    && var q := RunEnd(s, p);
    && p < q < |s| && s[q] == '-' && q + 1 < RunEnd(s, q + 1)
  }

  /** Where the match started at `p` ends. */
  function MatchEnd(s: string, p: nat): (e: nat)
    requires MatchStartsAt(s, p)
    ensures p < e <= |s| && IsDigitsDashDigits(s[p..e])
  {
    var q := RunEnd(s, p);
    var e := RunEnd(s, q + 1);
    var m := s[p..e];
    assert m[q - p] == '-';
    assert m[..q - p] == s[p..q];
    assert m[q - p + 1..] == s[q + 1..e];
    e
  }

  /** The leftmost match at or after `p`, as `re.search` scans start positions left to right. */
  function SearchFrom(s: string, p: nat): (r: Option<Span>)
    requires p <= |s|
    ensures r.Some? ==> p <= r.value.start && MatchStartsAt(s, r.value.start)
                        && r.value.end == MatchEnd(s, r.value.start)
                        && forall j :: p <= j < r.value.start ==> !MatchStartsAt(s, j)
    ensures r.None? ==> forall j :: p <= j ==> !MatchStartsAt(s, j)
    decreases |s| - p
  {
    if p == |s| then None
    else if MatchStartsAt(s, p) then Some(Span(p, MatchEnd(s, p)))
    else SearchFrom(s, p + 1)
  }

  /** `re.search(r"(\d+-\d+)", s)`: the span of group 1, or None when there is no match. */
  function SearchCompositeId(s: string): Option<Span> {
    SearchFrom(s, 0)
  }

  /** Every `\d+-\d+` occurrence in `s` can start a match at its own first digit. */
  lemma OccurrenceStartsMatch(s: string, a: nat, b: nat)
    requires a <= b <= |s| && IsDigitsDashDigits(s[a..b])
    ensures MatchStartsAt(s, a)
  {
    var m := s[a..b];
    var i :| 0 < i < |m| - 1 && m[i] == '-' && IsDigits(m[..i]) && IsDigits(m[i + 1..]);
    assert forall j :: a <= j < a + i ==> IsDigit(s[j]) by {
      forall j | a <= j < a + i ensures IsDigit(s[j]) {
        assert s[j] == m[..i][j - a];
      }
    }
    assert s[a + i] == '-';
    assert RunEnd(s, a) == a + i;
    assert IsDigit(s[a + i + 1]) by {
      assert s[a + i + 1] == m[i + 1..][0];
    }
  }

  /**
   * The search finds a match whenever `s` contains an identifier anywhere, no later than
   * that occurrence, and what it returns is itself an identifier.
   */
  lemma {:induction false} SearchFindsOccurrence(s: string, a: nat, b: nat)
    requires a <= b <= |s| && IsDigitsDashDigits(s[a..b])
    ensures SearchCompositeId(s).Some?
    ensures SearchCompositeId(s).value.start <= a
    ensures var sp := SearchCompositeId(s).value; IsDigitsDashDigits(s[sp.start..sp.end])
  {
    OccurrenceStartsMatch(s, a, b);
    var r := SearchCompositeId(s);
  }

  /** Applied to a whole identifier, the unanchored search returns all of it. */
  lemma SearchReturnsWholeId(s: string)
    requires IsDigitsDashDigits(s)
    ensures SearchCompositeId(s) == Some(Span(0, |s|))
  {
    assert s[0..|s|] == s;
    SearchFindsOccurrence(s, 0, |s|);
    var i :| 0 < i < |s| - 1 && s[i] == '-' && IsDigits(s[..i]) && IsDigits(s[i + 1..]);
    DashEndsFirstRun(s, i);
  }

  lemma SearchExample()
    ensures SearchCompositeId("104996-237092") == Some(Span(0, 13))
  {
    var s := "104996-237092";
    assert IsDigits(s[..6]) && IsDigits(s[7..]);
    SearchReturnsWholeId(s);
  }

  // ---------------------------------------------------------------------------
  // Deriving `class_id` from a class record
  // ---------------------------------------------------------------------------

  /** A JSON value found under `clase_id` or `dias_clases_id`. */
  datatype IdValue = IdNum(n: int) | IdText(text: string) | IdNull

  /**
   * The fields of a class record the derivation reads: `value` (None when missing or null),
   * and whether `clase_id` / `dias_clases_id` are present, with their values.
   */
  datatype ClassInfo = ClassInfo(value: Option<string>, claseId: Option<IdValue>, diasClasesId: Option<IdValue>)

  /** Python `f"{v}"`. */
  function FormatId(v: IdValue): string {
    match v
    case IdNum(n) => IntToString(n)
    case IdText(t) => t
    case IdNull => "None"
  }

  /**
   * `class_id = (info.get("value") or "").strip()`, replaced by
   * `f"{clase_id}-{dias_clases_id}"` when that is empty and both keys are present.
   */
  function DeriveClassId(info: ClassInfo): (id: string)
    ensures PyStrip(info.value.GetOr("")) != [] ==> id == PyStrip(info.value.GetOr(""))
    ensures (PyStrip(info.value.GetOr("")) == [] && info.claseId.Some? && info.diasClasesId.Some?)
              ==> id == FormatId(info.claseId.value) + "-" + FormatId(info.diasClasesId.value)
    ensures id == [] <==> PyStrip(info.value.GetOr("")) == [] && (info.claseId.None? || info.diasClasesId.None?)
  {
    var stripped := PyStrip(info.value.GetOr(""));
    if stripped == [] && info.claseId.Some? && info.diasClasesId.Some? then
      FormatId(info.claseId.value) + "-" + FormatId(info.diasClasesId.value)
    else stripped
  }

  /** `"{a}-{b}"` for two non-negative integer ids. */
  function FormatCompositeId(a: nat, b: nat): string {
    NatToString(a) + "-" + NatToString(b)
  }

  /** The two integers of an identifier that passes the check. */
  function ParseCompositeId(s: string): (r: Option<(nat, nat)>)
    ensures r.Some? <==> IsCompositeId(s)
  {
    var t := BeforeFinalNewline(s);
    if IsCompositeId(s) then
      var d := RunEnd(t, 0);
      Some((ValueOf(t[..d]), ValueOf(t[d + 1..])))
    else None
  }

  /** Two non-negative integer ids always make a valid identifier, and parse back to themselves. */
  lemma FormatParseRoundTrip(a: nat, b: nat)
    ensures IsCompositeId(FormatCompositeId(a, b))
    ensures ParseCompositeId(FormatCompositeId(a, b)) == Some((a, b))
  {
    var x, y := NatToString(a), NatToString(b);
    var s := x + "-" + y;
    assert BeforeFinalNewline(s) == s;
    assert s[..|x|] == x && s[|x| + 1..] == y && s[|x|] == '-';
    DashEndsFirstRun(s, |x|);
  }

  /** A record without `value` but with integer ids >= 0 gets `"{clase_id}-{dias_clases_id}"`, a valid identifier. */
  lemma DerivedIdFromIntegers(info: ClassInfo, a: nat, b: nat)
    requires PyStrip(info.value.GetOr("")) == []
    requires info.claseId == Some(IdNum(a)) && info.diasClasesId == Some(IdNum(b))
    ensures DeriveClassId(info) == FormatCompositeId(a, b)
    ensures ParseCompositeId(DeriveClassId(info)) == Some((a, b))
  {
    FormatParseRoundTrip(a, b);
  }

  /** Ids given as digit strings derive the same identifier as the numbers they spell. */
  lemma DerivedIdFromDigitText(info: ClassInfo, x: string, y: string)
    requires PyStrip(info.value.GetOr("")) == []
    requires info.claseId == Some(IdText(x)) && info.diasClasesId == Some(IdText(y))
    requires IsDigits(x) && IsDigits(y) && x[0] != '0' && y[0] != '0'
    ensures DeriveClassId(info) == FormatCompositeId(ValueOf(x), ValueOf(y))
  {
    CanonicalDigits(x);
    CanonicalDigits(y);
  }

  /** A digit string without a leading zero is how Python prints its value. */
  lemma {:induction false} CanonicalDigits(x: string)
    requires IsDigits(x) && x[0] != '0'
    ensures NatToString(ValueOf(x)) == x
    decreases |x|
  {
    var last := x[|x| - 1];
    var init := x[..|x| - 1];
    assert x == init + [last];
    if |x| == 1 {
      SingleDigitCanonical(last);
    } else {
      assert init[0] == x[0];
      CanonicalDigits(init);
      AppendCanonical(init, last);
    }
  }

  lemma SingleDigitCanonical(c: char)
    requires IsDigit(c)
    ensures NatToString(ValueOf([c])) == [c]
  {
    assert [c][..0] == [];
    assert ValueOf([c]) == DigitValue(c);
    DigitRoundTrip(c);
  }

  /** A digit appended to the text of a positive number gives the text of the larger number. */
  lemma AppendCanonical(init: string, c: char)
    requires IsDigits(init) && IsDigit(c) && NatToString(ValueOf(init)) == init && init[0] != '0'
    ensures NatToString(ValueOf(init + [c])) == init + [c]
  {
    var x := init + [c];
    var m := ValueOf(init);
    var d := DigitValue(c);
    var n := ValueOf(x);
    assert n == m * 10 + d by {
      assert x[..|x| - 1] == init && x[|x| - 1] == c;
    }
    assert m != 0;
    NatToStringAppend(n, m, d);
    DigitRoundTrip(c);
    assert NatToString(n) == init + [DigitChar(d)];
  }

  /** A negative integer id makes an identifier the check rejects: its text starts with '-'. */
  lemma NegativeIdRejected(info: ClassInfo)
    requires PyStrip(info.value.GetOr("")) == []
    requires info.claseId.Some? && info.claseId.value.IdNum? && info.claseId.value.n < 0
    requires info.diasClasesId.Some?
    ensures !IsCompositeId(DeriveClassId(info))
  {
    var id := DeriveClassId(info);
    assert id[0] == '-';
    assert BeforeFinalNewline(id)[0] == '-';
  }

  /** A null id is printed as "None", which the check rejects. */
  lemma NullIdRejected(info: ClassInfo)
    requires PyStrip(info.value.GetOr("")) == []
    requires info.claseId == Some(IdNull) && info.diasClasesId.Some?
    ensures !IsCompositeId(DeriveClassId(info))
  {
    var id := DeriveClassId(info);
    assert id[0] == 'N';
    assert BeforeFinalNewline(id)[0] == 'N';
  }

  /** The test-suite's derivation from the raw ids. */
  lemma DeriveFromRawIdsExample()
    ensures DeriveClassId(ClassInfo(None, Some(IdNum(104996)), Some(IdNum(237092)))) == "104996-237092"
  {
    var a, b := 104996, 237092;
    SixDigitExamples();
    assert NatToString(a) + "-" + NatToString(b) == "104996-237092";
  }

  /** The test-suite's derivation from a parsed `value`. */
  lemma DeriveFromValueExample()
    ensures DeriveClassId(ClassInfo(Some("104996-237092"), None, None)) == "104996-237092"
  {
    var v := "104996-237092";
    TrimKeepsUnpadded(v, IsPySpace);
  }

  lemma SixDigitExamples()
    ensures NatToString(104996) == "104996" && NatToString(237092) == "237092"
  {
    assert NatToString(1) == "1";
    assert NatToString(10) == "10";
    assert NatToString(104) == "104";
    assert NatToString(1049) == "1049";
    assert NatToString(10499) == "10499";
    assert NatToString(2) == "2";
    assert NatToString(23) == "23";
    assert NatToString(237) == "237";
    assert NatToString(2370) == "2370";
    assert NatToString(23709) == "23709";
  }

  // ---------------------------------------------------------------------------
  // Roster responses
  // ---------------------------------------------------------------------------

  /** `data.get(key) or []`. */
  function OrEmptyList(data: map<string, Json>, key: string): (r: Json)
    ensures Truthy(r) <==> key in data && Truthy(data[key])
    ensures key in data && Truthy(data[key]) ==> r == data[key]
  {
    var v := GetOr(data, key, JNull);
    if Truthy(v) then v else JArr([])
  }

  /** The reservation list of a roster response, `data.get("alumnos") or []`, when it is a list. */
  function RosterOf(data: map<string, Json>): (r: Option<seq<Json>>)
    ensures "alumnos" !in data ==> r == Some([])
    ensures "alumnos" in data && data["alumnos"].JArr? ==> r == Some(data["alumnos"].items)
    ensures "alumnos" in data && data["alumnos"] == JNull ==> r == Some([])
  {
    match OrEmptyList(data, "alumnos")
    case JArr(items) => Some(items)
    case _ => None
  }

  /** Coalescing is idempotent: a coalesced roster coalesces to itself. */
  lemma OrEmptyListIdempotent(data: map<string, Json>, key: string)
    ensures OrEmptyList(data[key := OrEmptyList(data, key)], key) == OrEmptyList(data, key)
  {
  }

  // ---------------------------------------------------------------------------
  // Class and date records
  // ---------------------------------------------------------------------------

  const ClassRecordKeys: set<string> := {"class", "classId", "reservations", "totalReservations", "extractedAt"}
  const DateRecordKeys: set<string> := {"date", "classes", "totalClasses", "scrapedAt"}

  /** A class record whose count agrees with its reservation list. */
  predicate WellFormedClassRecord(o: map<string, Json>) {
    && ClassRecordKeys <= o.Keys
    && o["reservations"].JArr?
    && o["totalReservations"] == JNum(|o["reservations"].items|)
  }

  /** A date record whose count agrees with its class map, and whose classes are well formed. */
  predicate WellFormedDateRecord(o: map<string, Json>) {
    && DateRecordKeys <= o.Keys
    && o["classes"].JObj?
    && o["totalClasses"] == JNum(|o["classes"].fields|)
    && forall name :: name in o["classes"].fields ==>
         o["classes"].fields[name].JObj? && WellFormedClassRecord(o["classes"].fields[name].fields)
  }

  /** The class record for `name`, with its count recomputed from the list. */
  function ClassRecord(name: string, classId: string, reservations: seq<Json>, extractedAt: string): (o: map<string, Json>)
    ensures WellFormedClassRecord(o) && o.Keys == ClassRecordKeys
    ensures o["class"] == JStr(name) && o["classId"] == JStr(classId) && o["reservations"] == JArr(reservations)
  {
    map[
      "class" := JStr(name),
      "classId" := JStr(classId),
      "reservations" := JArr(reservations),
      "totalReservations" := JNum(|reservations|),
      "extractedAt" := JStr(extractedAt)
    ]
  }

  /** The date record holding `classes`, with its count recomputed from the map. */
  function DateRecord(date: string, classes: map<string, map<string, Json>>, scrapedAt: string): (o: map<string, Json>)
    requires forall name :: name in classes ==> WellFormedClassRecord(classes[name])
    ensures WellFormedDateRecord(o) && o.Keys == DateRecordKeys
    ensures o["date"] == JStr(date) && o["classes"].fields.Keys == classes.Keys
  {
    var fields := map name | name in classes :: JObj(classes[name]);
    assert fields.Keys == classes.Keys;
    assert |fields| == |classes| by {
      assert |fields.Keys| == |classes.Keys|;
    }
    map[
      "date" := JStr(date),
      "classes" := JObj(fields),
      "totalClasses" := JNum(|classes|),
      "scrapedAt" := JStr(scrapedAt)
    ]
  }

  /** A roster with `alumnos` missing or null yields a record with no reservations and a count of 0. */
  lemma EmptyRosterRecord(name: string, classId: string, data: map<string, Json>, at: string)
    requires "alumnos" !in data || data["alumnos"] == JNull || data["alumnos"] == JArr([])
    ensures RosterOf(data) == Some([])
    ensures ClassRecord(name, classId, RosterOf(data).value, at)["totalReservations"] == JNum(0)
  {
  }

  // ---------------------------------------------------------------------------
  // DD-MM-YYYY dates
  // ---------------------------------------------------------------------------

  predicate IsLeapYear(y: nat) {
    (y % 4 == 0 && y % 100 != 0) || y % 400 == 0
  }

  function DaysInMonth(m: nat, y: nat): nat
    requires 1 <= m <= 12
  {
    if m == 2 then (if IsLeapYear(y) then 29 else 28)
    else if m in {4, 6, 9, 11} then 30
    else 31
  }

  /** A date `datetime` can hold, with a four-digit year. */
  predicate IsCalendarDate(d: nat, m: nat, y: nat) {
    1 <= m <= 12 && 1 <= d <= DaysInMonth(m, y) && 1000 <= y <= 9999
  }

  lemma FourDigits(y: nat)
    requires 1000 <= y <= 9999
    ensures |NatToString(y)| == 4
  {
    assert |NatToString(y / 1000)| == 1;
    assert y / 100 / 10 == y / 1000;
    assert |NatToString(y / 100)| == 2;
    assert y / 10 / 10 == y / 100;
    assert |NatToString(y / 10)| == 3;
  }

  /** `date.strftime("%d-%m-%Y")`. */
  function FormatDate(d: nat, m: nat, y: nat): (s: string)
    requires IsCalendarDate(d, m, y)
    ensures |s| == 10 && s[2] == '-' && s[5] == '-'
  {
    FourDigits(y);
    Pad2(d) + "-" + Pad2(m) + "-" + NatToString(y)
  }

  /** `parts = s.split("-")` read as three integers, as the test-suite does; None if it is not that shape. */
  function ParseDate(s: string): (r: Option<(nat, nat, nat)>)
    ensures r.Some? ==> |Split(s, '-')| == 3
  {
    var parts := Split(s, '-');
    if |parts| == 3 && IsDigits(parts[0]) && IsDigits(parts[1]) && IsDigits(parts[2]) then
      Some((ValueOf(parts[0]), ValueOf(parts[1]), ValueOf(parts[2])))
    else None
  }

  /**
   * Every formatted date splits into day, month and year again: the day is 1..31, the month
   * 1..12 and the year four digits, and parsing returns the date formatted.
   */
  lemma DateRoundTrip(d: nat, m: nat, y: nat)
    requires IsCalendarDate(d, m, y)
    ensures var s := FormatDate(d, m, y);
      && Split(s, '-') == [Pad2(d), Pad2(m), NatToString(y)]
      && |Split(s, '-')[2]| == 4
      && 1 <= ValueOf(Split(s, '-')[0]) <= 31
      && 1 <= ValueOf(Split(s, '-')[1]) <= 12
      && ParseDate(s) == Some((d, m, y))
  {
    DateSplits(d, m, y);
    FourDigits(y);
  }

  /** The three parts of a formatted date, recovered by `split("-")`. */
  lemma DateSplits(d: nat, m: nat, y: nat)
    requires IsCalendarDate(d, m, y)
    ensures Split(FormatDate(d, m, y), '-') == [Pad2(d), Pad2(m), NatToString(y)]
  {
    var parts := [Pad2(d), Pad2(m), NatToString(y)];
    DigitPartsHaveNoHyphen(parts);
    DateJoins(d, m, y);
    SplitJoin(parts, '-');
  }

  lemma DigitPartsHaveNoHyphen(parts: seq<string>)
    requires forall k :: 0 <= k < |parts| ==> IsDigits(parts[k])
    ensures forall p :: p in parts ==> '-' !in p
  {
    forall p | p in parts ensures '-' !in p {
      assert forall k :: 0 <= k < |p| ==> p[k] != '-';
    }
  }

  /** A formatted date is its three parts joined with '-'. */
  lemma DateJoins(d: nat, m: nat, y: nat)
    requires IsCalendarDate(d, m, y)
    ensures Join([Pad2(d), Pad2(m), NatToString(y)], '-') == FormatDate(d, m, y)
  {
    var parts := [Pad2(d), Pad2(m), NatToString(y)];
    assert parts[1..][1..] == [NatToString(y)];
    assert Join(parts[1..][1..], '-') == NatToString(y);
    assert Join(parts[1..], '-') == Pad2(m) + "-" + NatToString(y);
  }
}
