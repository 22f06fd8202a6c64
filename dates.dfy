/**
 * The calendar-day handling of both load paths. Date parsing is left abstract:
 * `toIso(s)` is the ISO-8601 UTC text (`toISOString()`) of `new Date(s)`, or None
 * when that date is invalid; "now" is passed in as its ISO text.
 */
module Dates {
  import opened Schema

  /** `iso.split("T")[0]`: the text before the first 'T'. */
  function DayPart(iso: string): (day: string)
    ensures day <= iso
    ensures 'T' !in day
    ensures |day| < |iso| ==> iso[|day|] == 'T'
  {
    if iso == [] || iso[0] == 'T' then [] else [iso[0]] + DayPart(iso[1..])
  }

  /** The day part of a timestamp written as day, 'T', time is exactly the day. */
  lemma {:induction false} DayPartOfStamp(day: string, time: string)
    requires 'T' !in day
    ensures DayPart(day + "T" + time) == day
  {
    if day != [] {
      assert (day + "T" + time)[1..] == day[1..] + "T" + time;
      DayPartOfStamp(day[1..], time);
    }
  }

  /** `usage_start_time` is a non-empty string that `new Date` accepts. */
  predicate ParsesToDate(t: Timestamp, toIso: string -> Option<string>) {
    t.Text? && t.text != "" && toIso(t.text).Some?
  }

  /** The transactional run's date step: a non-empty string that parses gives the day of
      its ISO form; undefined, null, the empty string, a non-string value or an invalid
      date give today's day. It never fails. */
  function FormattedDate(t: Timestamp, toIso: string -> Option<string>, nowIso: string): (day: string)
    ensures 'T' !in day
    ensures ParsesToDate(t, toIso) ==> day == DayPart(toIso(t.text).value)
    ensures !ParsesToDate(t, toIso) ==> day == DayPart(nowIso)
  {
    if t.Text? && t.text != "" then
      match toIso(t.text)
      case Some(iso) => DayPart(iso)
      case None => DayPart(nowIso)
    else
      DayPart(nowIso)
  }

  /** `new Date(null)` is the epoch. */
  const EpochIso: string := "1970-01-01T00:00:00.000Z"

  lemma EpochDay()
    ensures DayPart(EpochIso) == "1970-01-01"
  {
    assert EpochIso == "1970-01-01" + "T" + "00:00:00.000Z";
    DayPartOfStamp("1970-01-01", "00:00:00.000Z");
  }

  /** The mock load's date: `new Date(usage_start_time).toISOString().split("T")[0]`,
      None when `toISOString` throws because the date is invalid. */
  function MockDay(t: Timestamp, toIso: string -> Option<string>): (day: Option<string>)
    ensures day.Some? ==> 'T' !in day.value
    ensures day.None? <==> t.Undefined? || (t.Text? && toIso(t.text).None?) || t == Other(None)
    ensures t.Null? ==> day == Some("1970-01-01")
    // where the transactional date step uses the record's own date, both paths agree
    ensures ParsesToDate(t, toIso) ==> day == Some(DayPart(toIso(t.text).value))
    // any other value that makes a valid date gives the day of that date's ISO form
    ensures t.Text? && toIso(t.text).Some? ==> day == Some(DayPart(toIso(t.text).value))
    ensures t.Other? && t.asDate.Some? ==> day == Some(DayPart(t.asDate.value))
  {
    match t
    case Undefined => None
    case Null => EpochDay(); Some(DayPart(EpochIso))
    case Text(s) => if toIso(s).Some? then Some(DayPart(toIso(s).value)) else None
    case Other(asDate) => if asDate.Some? then Some(DayPart(asDate.value)) else None
  }

  /** node-postgres sends an `undefined` parameter as NULL. */
  function AsParameter(t: Timestamp): (p: Timestamp)
    ensures !p.Undefined?
    ensures !t.Undefined? ==> p == t
  {
    if t.Undefined? then Null else t
  }
}
