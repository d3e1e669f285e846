/**
 * JSON values as the Python side sees them after `json.load` / `request.get_json()`,
 * with the three Python operations the server and scraper apply to them:
 * truthiness (`if x:` / `x or y`), `dict.get(key, default)` and `len(x)`.
 * Numbers are integers only.
 */
module Json {
  import opened Optional

  datatype Json =
    | JNull
    | JBool(b: bool)
    | JNum(n: int)
    | JStr(s: string)
    | JArr(items: seq<Json>)
    | JObj(fields: map<string, Json>)

  /** Python truthiness: None, False, 0, "", [] and {} are false; everything else is true. */
  predicate Truthy(j: Json) {
    match j
    case JNull => false
    case JBool(b) => b
    case JNum(n) => n != 0
    case JStr(s) => s != []
    case JArr(items) => items != []
    case JObj(fields) => fields != map[]
  }

  /** `d.get(key, default)` on a dict. */
  function GetOr(d: map<string, Json>, key: string, default: Json): (r: Json)
    ensures key in d ==> r == d[key]
    ensures key !in d ==> r == default
  {
    if key in d then d[key] else default
  }

  /**
   * Python's `needle in text` on two strings: `needle` occurs somewhere in `text`
   * (the empty string occurs everywhere).
   */
  predicate IsSubstring(needle: string, text: string)
    decreases |text|
  {
    needle <= text || (text != [] && IsSubstring(needle, text[1..]))
  }

  /** Where a substring occurs: the leftmost position of `needle` in `text`. */
  function SubstringIndex(needle: string, text: string): (i: nat)
    requires IsSubstring(needle, text)
    ensures i + |needle| <= |text| && text[i..i + |needle|] == needle
    ensures forall j :: 0 <= j < i ==> !(needle <= text[j..])
    decreases |text|
  {
    if needle <= text then 0
    else
      var i := SubstringIndex(needle, text[1..]);
      assert text[1..][i..i + |needle|] == text[i + 1..i + 1 + |needle|];
      assert forall j :: 1 <= j <= i ==> text[1..][j - 1..] == text[j..];
      i + 1
  }

  /** Any occurrence of `needle` in `text` makes `needle in text` true. */
  lemma {:induction false} OccurrenceIsSubstring(needle: string, text: string, i: nat)
    requires i + |needle| <= |text| && text[i..i + |needle|] == needle
    ensures IsSubstring(needle, text)
    decreases i
  {
    if i == 0 {
      assert needle <= text;
    } else {
      assert text[1..][i - 1..i - 1 + |needle|] == text[i..i + |needle|];
      OccurrenceIsSubstring(needle, text[1..], i - 1);
    }
  }

  /**
   * `key in container` for a string `key`: a key of a dict, an element of a list, a
   * substring of a string; None where Python raises `TypeError` (null, booleans, numbers).
   */
  function PyIn(key: string, container: Json): (r: Option<bool>)
    ensures r.Some? <==> (container.JObj? || container.JArr? || container.JStr?)
    ensures container.JObj? ==> r == Some(key in container.fields)
    ensures container.JArr? ==> r == Some(JStr(key) in container.items)
    ensures container.JStr? ==> r == Some(IsSubstring(key, container.s))
  {
    match container
    case JObj(fields) => Some(key in fields)
    case JArr(items) => Some(JStr(key) in items)
    case JStr(s) => Some(IsSubstring(key, s))
    case _ => None
  }

  /** `len(j)`, or None where Python raises `TypeError` (null, booleans, numbers). */
  function PyLen(j: Json): (r: Option<nat>)
    ensures r.Some? <==> (j.JStr? || j.JArr? || j.JObj?)
    ensures r.Some? ==> (r.value == 0 <==> !Truthy(j))
  {
    match j
    case JStr(s) => Some(|s|)
    case JArr(items) => Some(|items|)
    case JObj(fields) => Some(|fields|)
    case _ => None
  }
}
