/**
 * The date helpers of the bot: weekday and month lookup with French names,
 * and reading an "H:M" clock string as a time of the current day.
 */
module DateTime {
  import opened Wrappers
  import opened Strings

  /** `Date.prototype.getDay()`: 0 is Sunday, 6 is Saturday. */
  type JsWeekday = d: int | 0 <= d < 7

  /** `Date.prototype.getMonth()`: 0 is January. */
  type JsMonth = m: int | 0 <= m < 12

  const Days: seq<string> := ["Lundi", "Mardi", "Mercredi", "Jeudi", "Vendredi", "Samedi", "Dimanche"]

  /** The month names, spelling included ("Févriver"). */
  const Months: seq<string> := ["Janvier", "F\U{E9}vriver", "Mars", "Avril", "Mai", "Juin",
    "Juillet", "Aout", "Septembre", "Octobre", "Novembre", "D\U{E9}cembre"]

  datatype DayInfo = DayInfo(index: int, number: int, name: string)

  datatype MonthInfo = MonthInfo(index: int, number: int, name: string)

  /** `getDay(date)`: the weekday counted from Monday, the day of the month
      and the weekday's name. The index is a rotation of JavaScript's
      Sunday-first weekday, so distinct weekdays get distinct indices. */
  function GetDay(weekday: JsWeekday, dateOfMonth: int): (d: DayInfo)
    ensures 0 <= d.index < |Days| && d.name == Days[d.index]
    ensures d.number == dateOfMonth
    ensures (d.index + 1) % 7 == weekday
  {
    var index := if weekday - 1 == -1 then |Days| - 1 else weekday - 1;
    DayInfo(index, dateOfMonth, Days[index])
  }

  /** `getMonth(date)`. */
  function GetMonth(month: JsMonth): (m: MonthInfo)
    ensures m.index == month
    ensures 1 <= m.number <= 12 && m.number == m.index + 1
    ensures m.name == Months[m.index]
  {
    MonthInfo(month, month + 1, Months[month])
  }

  /** `getDateFromString(value)` as minutes since midnight of the current day:
      the string is split on ':' and the first two fields are read with
      `Number`; `setHours(h, m, 0)` then gives 60·h + m (hours past 23 roll
      into the next day, which the count keeps). A missing minute field or
      a field that is not a number gives an Invalid Date, here `None`. */
  function GetDateFromString(value: string): (r: Option<int>)
    ensures r.Some? ==> ':' in value
  {
    ReadClock(Split(value, ':'))
  }

  /** `setHours(Number(fields[0]), Number(fields[1]), 0)`. */
  function ReadClock(fields: seq<string>): Option<int> {
    if |fields| < 2 then None
    else
      var h, m := JsNumber(fields[0]), JsNumber(fields[1]);
      if h.Some? && m.Some? then Some(60 * h.value + m.value) else None
  }

  lemma DigitsHaveNoSpace(s: string)
    requires AllDigits(s)
    ensures NoSpace(s) && ':' !in s && '-' !in s
  {
    forall i | 0 <= i < |s| ensures !IsJsSpace(s[i]) {
      assert IsDigit(s[i]);
    }
  }

  lemma ClockSplit(hs: string, ms: string)
    requires AllDigits(hs) && AllDigits(ms)
    ensures Split(hs + [':'] + ms, ':') == [hs, ms]
  {
    DigitsHaveNoSpace(hs);
    DigitsHaveNoSpace(ms);
    assert Join([hs, ms], ':') == hs + [':'] + ms by {
      assert [hs, ms][1..] == [ms];
    }
    SplitJoin([hs, ms], ':');
  }

  lemma JsNumberOfDigits(s: string)
    requires AllDigits(s)
    ensures JsNumber(s) == Some(DigitsValue(s))
  {
    DigitsHaveNoSpace(s);
  }

  lemma ReadClockOf(hs: string, ms: string, h: nat, m: nat)
    requires JsNumber(hs) == Some(h) && JsNumber(ms) == Some(m)
    ensures ReadClock([hs, ms]) == Some(60 * h + m)
  {
  }

  lemma JsNumberOfNat(n: nat)
    ensures JsNumber(NatToString(n)) == Some(n)
  {
    JsNumberOfDigits(NatToString(n));
    NatToStringValue(n);
  }

  /** Reading back a clock written as `String(h) + ":" + String(m)` gives
      60·h + m. */
  lemma GetDateFromStringOfClock(h: nat, m: nat)
    ensures GetDateFromString(NatToString(h) + [':'] + NatToString(m)) == Some(60 * h + m)
  {
    var hs, ms := NatToString(h), NatToString(m);
    ClockSplit(hs, ms);
    JsNumberOfNat(h);
    JsNumberOfNat(m);
    ReadClockOf(hs, ms, h, m);
  }
}
