/** The date picker (`DatePicker` and its `Calendar`): the year and month
    options of the calendar header, the day-disable rule, and the state the
    calendar and the picker keep. A JavaScript `Date` is modelled as a year,
    a month (0 to 11), a day and the milliseconds since midnight, compared
    in that order. */
module DatePicker {
  import opened Common
  import opened Select

  datatype Date = Date(year: int, month: int, day: int, time: int)

  /** `a < b` on dates: the earlier instant. */
  predicate Before(a: Date, b: Date) {
    a.year < b.year
    || (a.year == b.year && a.month < b.month)
    || (a.year == b.year && a.month == b.month && a.day < b.day)
    || (a.year == b.year && a.month == b.month && a.day == b.day && a.time < b.time)
  }

  /** The calendar grid's cell for a day: that day at midnight. */
  function DayCell(year: int, month: int, day: int): Date {
    Date(year, month, day, 0)
  }

  // ---------------------------------------------------------------------
  // Decimal text of numbers (`toString()` and `Number.parseInt(s, 10)`)

  function DigitChar(d: nat): char
    requires d < 10
  {
    ('0' as int + d) as char
  }

  function Decimal(n: nat): (s: string)
    ensures |s| > 0
    ensures forall k :: 0 <= k < |s| ==> '0' <= s[k] <= '9'
  {
    if n < 10 then [DigitChar(n)] else Decimal(n / 10) + [DigitChar(n % 10)]
  }

  predicate IsDigits(s: string) {
    |s| > 0 && forall k :: 0 <= k < |s| ==> '0' <= s[k] <= '9'
  }

  function ParseDecimal(s: string): nat
    requires forall k :: 0 <= k < |s| ==> '0' <= s[k] <= '9'
  {
    if s == [] then 0
    else ParseDecimal(s[..|s| - 1]) * 10 + (s[|s| - 1] as int - '0' as int)
  }

  /** Parsing the decimal text of a number gives the number back. */
  lemma {:induction false} ParseDecimalOfDecimal(n: nat)
    ensures ParseDecimal(Decimal(n)) == n
  {
    if n >= 10 {
      var s := Decimal(n);
      assert s[..|s| - 1] == Decimal(n / 10);
      ParseDecimalOfDecimal(n / 10);
    }
  }

  /** Different numbers have different decimal texts. */
  lemma DecimalInjective(m: nat, n: nat)
    requires Decimal(m) == Decimal(n)
    ensures m == n
  {
    ParseDecimalOfDecimal(m);
    ParseDecimalOfDecimal(n);
  }

  // ---------------------------------------------------------------------
  // Year options (`getYears`)

  function YearOption(year: nat): (o: SelectOption)
    ensures o.value == o.text == Decimal(year) && !o.disabled
  {
    SelectOption(Decimal(year), Decimal(year), false)
  }

  /** `count` consecutive years from `start`, the ones below 1 left out. */
  function YearsFrom(start: int, count: int): seq<SelectOption>
    decreases count
  {
    if count <= 0 then []
    else (if start >= 1 then [YearOption(start)] else []) + YearsFrom(start + 1, count - 1)
  }

  /** The years kept run from `max(start, 1)` up to `start + count - 1`, one entry each. */
  lemma {:induction false} YearsFromSpec(start: int, count: int)
    ensures var lo := if start >= 1 then start else 1;
      var hi := start + count - 1;
      var r := YearsFrom(start, count);
      && |r| == (if hi < lo then 0 else hi - lo + 1)
      && forall k :: 0 <= k < |r| ==> r[k] == YearOption(lo + k)
    decreases count
  {
    if count > 0 {
      YearsFromSpec(start + 1, count - 1);
    }
  }

  /** `getYears(selectedDate, yearRange)`: `selected` is `None` for an invalid date,
      in which case the year of `now` is used. */
  function GetYears(selected: Option<Date>, now: Date, yearRange: int): seq<SelectOption> {
    var year := if selected.Some? then selected.value.year else now.year;
    YearsFrom(year - yearRange, yearRange * 2 + 1)
  }

  /** The year options run, ascending and one year apart, from
      `max(Y - r, 1)` to `Y + r`; each option's value and label are the
      decimal text of its year. */
  lemma GetYearsSpec(selected: Option<Date>, now: Date, yearRange: int)
    ensures var y := if selected.Some? then selected.value.year else now.year;
      var lo := if y - yearRange >= 1 then y - yearRange else 1;
      var r := GetYears(selected, now, yearRange);
      && |r| == (if y + yearRange < lo then 0 else y + yearRange - lo + 1)
      && forall k :: 0 <= k < |r| ==> lo + k >= 1 && r[k].value == r[k].text == Decimal(lo + k)
  {
    var y := if selected.Some? then selected.value.year else now.year;
    YearsFromSpec(y - yearRange, yearRange * 2 + 1);
  }

  /** When no year falls below 1 there are exactly `2r + 1` options, centred on `Y`. */
  lemma GetYearsFull(selected: Option<Date>, now: Date, yearRange: int)
    requires yearRange >= 0
    requires (if selected.Some? then selected.value.year else now.year) - yearRange >= 1
    ensures var y := if selected.Some? then selected.value.year else now.year;
      var r := GetYears(selected, now, yearRange);
      |r| == 2 * yearRange + 1 && r[yearRange].value == Decimal(y)
  {
    GetYearsSpec(selected, now, yearRange);
  }

  /** Choosing a year option and parsing its value gives that year back. */
  lemma YearOptionsRoundTrip(selected: Option<Date>, now: Date, yearRange: int, k: nat)
    requires k < |GetYears(selected, now, yearRange)|
    ensures var y := if selected.Some? then selected.value.year else now.year;
      var lo := if y - yearRange >= 1 then y - yearRange else 1;
      var v := GetYears(selected, now, yearRange)[k].value;
      IsDigits(v) && ParseDecimal(v) == lo + k
  {
    var y := if selected.Some? then selected.value.year else now.year;
    var lo := if y - yearRange >= 1 then y - yearRange else 1;
    GetYearsSpec(selected, now, yearRange);
    ParseDecimalOfDecimal(lo + k);
  }

  // ---------------------------------------------------------------------
  // Month options (`monthsOptions`)

  const MonthNames: seq<string> := ["Janeiro", "Fevereiro", "Março", "Abril", "Maio", "Junho",
    "Julho", "Agosto", "Setembro", "Outubro", "Novembro", "Dezembro"]

  const MonthOptions: seq<SelectOption> := [
    SelectOption("0", "Janeiro", false), SelectOption("1", "Fevereiro", false),
    SelectOption("2", "Março", false), SelectOption("3", "Abril", false),
    SelectOption("4", "Maio", false), SelectOption("5", "Junho", false),
    SelectOption("6", "Julho", false), SelectOption("7", "Agosto", false),
    SelectOption("8", "Setembro", false), SelectOption("9", "Outubro", false),
    SelectOption("10", "Novembro", false), SelectOption("11", "Dezembro", false)]

  predicate IsMonthValue(v: string) {
    exists k :: 0 <= k < |MonthOptions| && MonthOptions[k].value == v
  }

  /** Twelve options in calendar order, valued by the 0-based month number
      (the `Date.getMonth()` convention), so parsing an option's value gives
      its position back. */
  lemma MonthOptionsSpec()
    ensures |MonthOptions| == 12
    ensures forall k :: 0 <= k < 12 ==>
      MonthOptions[k] == SelectOption(Decimal(k), MonthNames[k], false)
      && ParseDecimal(MonthOptions[k].value) == k
  {
    assert Decimal(10) == "10" && Decimal(11) == "11";
    forall k | 0 <= k < 12
      ensures MonthOptions[k] == SelectOption(Decimal(k), MonthNames[k], false)
    {
    }
    forall k | 0 <= k < 12 ensures ParseDecimal(MonthOptions[k].value) == k {
      ParseDecimalOfDecimal(k);
    }
  }

  // ---------------------------------------------------------------------
  // Day cells

  /** The calendar's `disabled` matcher:
      `(minValue && minValue > date) || (maxvalue && maxvalue < date) || disabled`. */
  predicate DayDisabled(date: Date, minValue: Option<Date>, maxValue: Option<Date>, disabled: bool) {
    (minValue.Some? && Before(date, minValue.value))
    || (maxValue.Some? && Before(maxValue.value, date))
    || disabled
  }

  /** A day is disabled exactly when it falls before the minimum, after the
      maximum, or the calendar is disabled: inside the bounds (the bounds
      themselves included) a day is selectable unless the calendar is disabled. */
  lemma DayDisabledSpec(date: Date, minValue: Option<Date>, maxValue: Option<Date>, disabled: bool)
    ensures !disabled && (minValue.None? || !Before(date, minValue.value))
            && (maxValue.None? || !Before(maxValue.value, date))
            ==> !DayDisabled(date, minValue, maxValue, disabled)
    ensures disabled ==> DayDisabled(date, minValue, maxValue, disabled)
    ensures minValue.Some? && Before(date, minValue.value) ==> DayDisabled(date, minValue, maxValue, disabled)
    ensures maxValue.Some? && Before(maxValue.value, date) ==> DayDisabled(date, minValue, maxValue, disabled)
    ensures minValue.Some? ==> !DayDisabled(minValue.value, minValue, None, false)
    ensures maxValue.Some? ==> !DayDisabled(maxValue.value, None, maxValue, false)
  {
  }

  /** The comparison is on instants, not days: a minimum with a time of day
      after midnight disables the cell of its own day. */
  lemma MinimumWithTimeDisablesItsDay(minValue: Date)
    requires minValue.time > 0
    ensures DayDisabled(DayCell(minValue.year, minValue.month, minValue.day), Some(minValue), None, false)
  {
  }

  // ---------------------------------------------------------------------
  // The calendar's displayed month

  /** `yearRange = 50`: the calendar's year range when the prop is omitted.
      The date picker forwards its optional `calendarYearRange`, so an
      omitted one arrives as this default. */
  const DefaultYearRange := 50

  class Calendar {
    const minValue: Option<Date>
    const maxValue: Option<Date>
    const disabled: bool
    const yearRange: int
    /** The `value` prop of the last render. */
    var value: Option<Date>
    /** The displayed month (a full date, as in the source). */
    var month: Date

    /** `yearRange` is the optional prop: when omitted the calendar uses 50. */
    constructor (value: Option<Date>, now: Date, minValue: Option<Date>, maxValue: Option<Date>,
                 disabled: bool, yearRange: Option<int>)
      ensures this.value == value && this.minValue == minValue && this.maxValue == maxValue
      ensures this.disabled == disabled
      ensures yearRange.Some? ==> this.yearRange == yearRange.value
      ensures yearRange.None? ==> this.yearRange == DefaultYearRange
      ensures month == if value.Some? then value.value else now
    {
      this.value := value;
      this.minValue := minValue;
      this.maxValue := maxValue;
      this.disabled := disabled;
      this.yearRange := if yearRange.Some? then yearRange.value else DefaultYearRange;
      month := if value.Some? then value.value else now;
    }

    /** A render with a new `value`, followed by the effect that moves the
        displayed month to a given value that differs from it. */
    method Rerender(value: Option<Date>)
      modifies this
      ensures this.value == value
      ensures month == if value.Some? then value.value else old(month)
    {
      this.value := value;
      if value.Some? && value.value != month {
        month := value.value;
      }
    }

    /** The month select: `newDate.setMonth(Number.parseInt(v, 10))`. */
    method SelectMonth(v: string)
      requires IsMonthValue(v)
      modifies this`month
      ensures exists k :: 0 <= k < 12 && MonthOptions[k].value == v && month == old(month).(month := k)
    {
      MonthOptionsSpec();
      ghost var k :| 0 <= k < |MonthOptions| && MonthOptions[k].value == v;
      month := month.(month := ParseDecimal(v));
    }

    /** The year select: `newDate.setFullYear(Number.parseInt(v, 10))`. */
    method SelectYear(v: string)
      requires IsDigits(v)
      modifies this`month
      ensures month == old(month).(year := ParseDecimal(v))
    {
      month := month.(year := ParseDecimal(v));
    }

    /** The grid's own navigation (`onMonthChange={setMonth}`). */
    method OnMonthChange(d: Date)
      modifies this`month
      ensures month == d
    {
      month := d;
    }

    /** The year select's options (`getYears(month, yearRange)`): the years
        from `max(Y - yearRange, 1)` to `Y + yearRange` around the displayed
        month's year `Y`, ascending. */
    function YearOptions(): (r: seq<SelectOption>)
      reads this
      ensures var y := month.year;
        var lo := if y - yearRange >= 1 then y - yearRange else 1;
        && |r| == (if y + yearRange < lo then 0 else y + yearRange - lo + 1)
        && forall k :: 0 <= k < |r| ==> r[k].value == r[k].text == Decimal(lo + k)
      ensures yearRange >= 0 && month.year - yearRange >= 1 ==>
        |r| == 2 * yearRange + 1 && r[yearRange].value == Decimal(month.year)
    {
      GetYearsSpec(Some(month), month, yearRange);
      GetYears(Some(month), month, yearRange)
    }

    predicate IsDayDisabled(date: Date)
      reads this
    {
      DayDisabled(date, minValue, maxValue, disabled)
    }
  }

  // ---------------------------------------------------------------------
  // The picker around the field and the calendar popover

  class Picker {
    const minValue: Option<Date>
    const maxValue: Option<Date>
    const disabled: bool
    /** The `value` prop of the last render, handed on as the field state's
        own `value`: the field is controlled unless it is `undefined`. */
    var value: Prop<Date>
    /** The field state's internal date, used when `value` is `undefined`. */
    var dateValue: Option<Date>
    var open: bool

    constructor (value: Prop<Date>, minValue: Option<Date>, maxValue: Option<Date>, disabled: bool)
      ensures this.value == value && this.minValue == minValue && this.maxValue == maxValue
      ensures this.disabled == disabled && dateValue.None? && !open
    {
      this.value := value;
      this.minValue := minValue;
      this.maxValue := maxValue;
      this.disabled := disabled;
      dateValue := None;
      open := false;
    }

    predicate IsControlled()
      reads this
    {
      !value.Undefined?
    }

    /** The date the field shows: the parent's when controlled (`null` shows
        an empty field), the internal one otherwise. */
    function FieldValue(): (r: Option<Date>)
      reads this
      ensures value.Given? ==> r == Some(value.value)
      ensures value.Null? ==> r.None?
      ensures value.Undefined? ==> r == dateValue
    {
      match value
      case Given(d) => Some(d)
      case Null => None
      case Undefined => dateValue
    }

    method Rerender(value: Prop<Date>)
      modifies this`value
      ensures this.value == value
    {
      this.value := value;
    }

    /** The field commits a date (or a cleared field): `handleChangeDate`
        reports it, a date as that date and a cleared field as `null`; the
        field keeps it only when uncontrolled. */
    method ChangeDate(v: Option<Date>) returns (reported: Option<Date>)
      modifies this`dateValue
      ensures reported == v
      ensures dateValue == if IsControlled() then old(dateValue) else v
      ensures !IsControlled() ==> FieldValue() == v
      ensures IsControlled() ==> FieldValue() == old(FieldValue())
    {
      if !IsControlled() {
        dateValue := v;
      }
      reported := if v.Some? then Some(v.value) else None;
    }

    /** Picking a day in the calendar (which only offers enabled days, and
        ignores a deselection): the field commits that day with the time of
        day it already shows, midnight when it is empty; the choice is
        reported, kept only when uncontrolled, and the popover closes. */
    method PickDay(d: Date) returns (reported: Option<Date>)
      requires !DayDisabled(DayCell(d.year, d.month, d.day), minValue, maxValue, disabled)
      modifies this`dateValue, this`open
      ensures var time := if old(FieldValue()).Some? then old(FieldValue()).value.time else 0;
        reported == Some(Date(d.year, d.month, d.day, time))
      ensures dateValue == if IsControlled() then old(dateValue) else reported
      ensures !open
    {
      var shown := FieldValue();
      var time := if shown.Some? then shown.value.time else 0;
      reported := ChangeDate(Some(Date(d.year, d.month, d.day, time)));
      open := false;
    }

    method OnOpenChange(isOpen: bool)
      modifies this`open
      ensures open == isOpen
    {
      open := isOpen;
    }
  }
}
