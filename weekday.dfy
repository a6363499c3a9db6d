/** `normalizeDay` of frontend/src/components/Calendar.jsx: turns a day-of-week
    field into one of the seven canonical names when it recognises it. */
module Weekday {
  import opened Text
  import opened JsValue

  /** `WEEKDAYS`, indexed by `Date.prototype.getDay` (0 is Sunday). */
  const Weekdays: seq<string> := ["Sunday", "Monday", "Tuesday", "Wednesday", "Thursday", "Friday", "Saturday"]

  /** The lookup table, keyed by trimmed lower-case spellings. */
  const DayTable: map<string, string> := map[
    "sun" := "Sunday", "sunday" := "Sunday",
    "mon" := "Monday", "monday" := "Monday",
    "tue" := "Tuesday", "tues" := "Tuesday", "tuesday" := "Tuesday",
    "wed" := "Wednesday", "weds" := "Wednesday", "wednesday" := "Wednesday",
    "thu" := "Thursday", "thur" := "Thursday", "thurs" := "Thursday", "thursday" := "Thursday",
    "fri" := "Friday", "friday" := "Friday",
    "sat" := "Saturday", "saturday" := "Saturday"
  ]

  /** `WEEKDAYS.map(w => w.toLowerCase())`. */
  function LowerWeekdays(): seq<string> {
    seq(|Weekdays|, i requires 0 <= i < |Weekdays| => ToLower(Weekdays[i]))
  }

  /** `k.charAt(0).toUpperCase() + k.slice(1)`. */
  function Capitalize(k: string): string {
    if k == [] then [] else [UpperChar(k[0])] + k[1..]
  }

  /** The lookup key `String(s).trim().toLowerCase()`. */
  function DayKey(v: Scalar): string {
    ToLower(Trim(ToJsString(v)))
  }

  /** `normalizeDay(s)`: "" for a falsy input; the table entry for a known
      key; for a key that is a lower-cased weekday name, that name
      capitalised; otherwise `String(s)` unchanged. */
  function NormalizeDay(v: Scalar): (r: string)
    ensures !Truthy(v) ==> r == ""
    ensures Truthy(v) && DayKey(v) in DayTable ==> r in Weekdays
  {
    if !Truthy(v) then ""
    else
      var k := DayKey(v);
      if k in DayTable then DayTable[k]
      else if k in LowerWeekdays() then Capitalize(k)
      else ToJsString(v)
  }

  lemma LowerWeekdaysValues()
    ensures LowerWeekdays() == ["sunday", "monday", "tuesday", "wednesday", "thursday", "friday", "saturday"]
  {
    assert ToLower("Sunday") == "sunday";
    assert ToLower("Monday") == "monday";
    assert ToLower("Tuesday") == "tuesday";
    assert ToLower("Wednesday") == "wednesday";
    assert ToLower("Thursday") == "thursday";
    assert ToLower("Friday") == "friday";
    assert ToLower("Saturday") == "saturday";
  }

  /** Every table entry is a canonical weekday name. */
  lemma DayTableValuesAreWeekdays()
    ensures forall k :: k in DayTable ==> DayTable[k] in Weekdays
  {
  }

  /** The second branch of `normalizeDay` never decides anything: every
      lower-cased weekday name is already a table key, mapped to that name
      capitalised. */
  lemma WeekdayFallbackSubsumed(k: string)
    requires k in LowerWeekdays()
    ensures k in DayTable && DayTable[k] == Capitalize(k)
  {
    LowerWeekdaysValues();
    CapitalizedEarlyNames();
    CapitalizedLateNames();
    assert k == "sunday" || k == "monday" || k == "tuesday" || k == "wednesday"
      || k == "thursday" || k == "friday" || k == "saturday";
  }

  lemma CapitalizedEarlyNames()
    ensures Capitalize("sunday") == "Sunday" && Capitalize("monday") == "Monday"
    ensures Capitalize("tuesday") == "Tuesday"
  {
    assert Capitalize("sunday") == "Sunday";
    assert Capitalize("monday") == "Monday";
  }

  lemma CapitalizedLateNames()
    ensures Capitalize("wednesday") == "Wednesday" && Capitalize("thursday") == "Thursday"
    ensures Capitalize("friday") == "Friday" && Capitalize("saturday") == "Saturday"
  {
    assert Capitalize("wednesday") == "Wednesday";
    assert Capitalize("thursday") == "Thursday";
    assert Capitalize("friday") == "Friday";
  }

  /** The three outcomes of `normalizeDay`: "" for a falsy input, a
      canonical name for a recognised key, and the input as a string for
      everything else. */
  lemma NormalizeDayCases(v: Scalar)
    ensures !Truthy(v) ==> NormalizeDay(v) == ""
    ensures Truthy(v) && DayKey(v) in DayTable ==> NormalizeDay(v) == DayTable[DayKey(v)] && NormalizeDay(v) in Weekdays
    ensures Truthy(v) && DayKey(v) !in DayTable ==> NormalizeDay(v) == ToJsString(v)
  {
    DayTableValuesAreWeekdays();
    if Truthy(v) && DayKey(v) in LowerWeekdays() {
      WeekdayFallbackSubsumed(DayKey(v));
    }
  }

  lemma TrimOfWord(w: string)
    requires w != [] && !IsSpace(w[0]) && !IsSpace(w[|w| - 1])
    ensures Trim(w) == w
  {
    assert TrimStart(w) == w;
  }

  /** Each canonical weekday name, exactly as `WEEKDAYS` spells it, is its
      own normal form. */
  lemma NormalizeDayOfWeekday(i: nat)
    requires i < 7
    ensures NormalizeDay(Str(Weekdays[i])) == Weekdays[i]
  {
    var w := Weekdays[i];
    TrimOfWord(w);
    LowerWeekdaysValues();
    assert DayKey(Str(w)) == LowerWeekdays()[i];
  }

  /** `normalizeDay` is idempotent. */
  lemma NormalizeDayIdempotent(v: Scalar)
    ensures NormalizeDay(Str(NormalizeDay(v))) == NormalizeDay(v)
  {
    NormalizeDayCases(v);
    var r := NormalizeDay(v);
    if Truthy(v) && DayKey(v) in DayTable {
      DayTableValuesAreWeekdays();
      var i :| 0 <= i < 7 && Weekdays[i] == r;
      NormalizeDayOfWeekday(i);
    } else if Truthy(v) {
      assert ToJsString(Str(r)) == r == ToJsString(v);
    }
  }
}
