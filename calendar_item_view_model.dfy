/** The calendar view-model: the displayed year and month, the French name of
    the month, and the previous/next commands. Each setter reports the
    property-change notifications it raised, in order. */
module CalendarItemViewModels {
  import opened Common
  import opened Gregorian
  import opened MonthCursor

  /** `_months`: the French month names, January first. */
  const Months: seq<string> := [
    "Janvier", "Février", "Mars", "Avril", "Mai", "Juin",
    "Juillet", "Août", "Septembre", "Octobre", "Novembre", "Décembre"
  ]

  class CalendarItemViewModel {
    var currentYear: int
    var currentMonth: int
    var currentMonthName: Option<string>

    function Cursor(): YearMonth
      reads this
    {
      YearMonth(currentYear, currentMonth)
    }

    /** The month is a real month and the name is its French name. */
    predicate Valid()
      reads this
    {
      1 <= currentMonth <= 12 && currentMonthName == Some(Months[currentMonth - 1])
    }

    /** Year and month from the clock, through the setters. */
    constructor (now: DateTime)
      requires IsRepresentable(now)
      ensures Valid() && Cursor() == YearMonth(now.year, now.month)
    {
      currentYear, currentMonth, currentMonthName := 0, 0, None;
      new;
      var _ := SetCurrentYear(now.year);
      var _, _ := SetCurrentMonth(now.month);
    }

    /** The `CurrentYear` setter: assigns and notifies only on a change. */
    method SetCurrentYear(value: int) returns (raised: seq<PropertyName>)
      modifies this
      ensures currentYear == value
      ensures currentMonth == old(currentMonth) && currentMonthName == old(currentMonthName)
      ensures raised == if old(currentYear) == value then [] else [CurrentYear]
    {
      raised := [];
      if currentYear != value {
        currentYear := value;
        raised := [CurrentYear];
      }
    }

    /** The private `CurrentMonthName` setter. */
    method SetCurrentMonthName(value: Option<string>) returns (raised: seq<PropertyName>)
      modifies this
      ensures currentMonthName == value
      ensures currentYear == old(currentYear) && currentMonth == old(currentMonth)
      ensures raised == if old(currentMonthName) == value then [] else [CurrentMonthName]
    {
      raised := [];
      if currentMonthName != value {
        currentMonthName := value;
        raised := [CurrentMonthName];
      }
    }

    /** The `CurrentMonth` setter. On a change it stores the month, then looks
        the name up in `_months`; a month outside 1..12 makes that lookup throw
        (`ok` false) after the month was already stored. */
    method SetCurrentMonth(value: int) returns (raised: seq<PropertyName>, ok: bool)
      modifies this
      ensures currentMonth == value && currentYear == old(currentYear)
      ensures ok <==> old(currentMonth) == value || 1 <= value <= 12
      ensures old(currentMonth) == value ==> raised == [] && currentMonthName == old(currentMonthName)
      ensures old(currentMonth) != value && ok ==>
        currentMonthName == Some(Months[value - 1])
        && raised == (if old(currentMonthName) == currentMonthName then [] else [CurrentMonthName]) + [CurrentMonth]
      ensures !ok ==> raised == [] && currentMonthName == old(currentMonthName)
      ensures old(Valid()) && ok ==> Valid()
    {
      raised, ok := [], true;
      if currentMonth != value {
        currentMonth := value;
        if 1 <= value <= 12 {
          raised := SetCurrentMonthName(Some(Months[value - 1]));
          raised := raised + [CurrentMonth];
        } else {
          ok := false;
        }
      }
    }

    /** `OnPreviousMonth`: January goes to December of the previous year. */
    method OnPreviousMonth() returns (raised: seq<PropertyName>, ok: bool)
      modifies this
      ensures Cursor() == Previous(old(Cursor()))
      ensures ok <==> 1 <= currentMonth <= 12
      ensures ok ==> Valid() && CurrentMonth in raised
      ensures !ok ==> currentMonthName == old(currentMonthName)
      ensures (CurrentYear in raised) <==> currentYear != old(currentYear)
      ensures old(Valid()) ==> ok
    {
      if currentMonth == 1 {
        raised, ok := SetCurrentMonth(12);
        var yearRaised := SetCurrentYear(currentYear - 1);
        raised := raised + yearRaised;
      } else {
        raised, ok := SetCurrentMonth(currentMonth - 1);
      }
    }

    /** `OnNextMonth`: December goes to January of the next year. */
    method OnNextMonth() returns (raised: seq<PropertyName>, ok: bool)
      modifies this
      ensures Cursor() == Next(old(Cursor()))
      ensures ok <==> 1 <= currentMonth <= 12
      ensures ok ==> Valid() && CurrentMonth in raised
      ensures !ok ==> currentMonthName == old(currentMonthName)
      ensures (CurrentYear in raised) <==> currentYear != old(currentYear)
      ensures old(Valid()) ==> ok
    {
      if currentMonth == 12 {
        raised, ok := SetCurrentMonth(1);
        var yearRaised := SetCurrentYear(currentYear + 1);
        raised := raised + yearRaised;
      } else {
        raised, ok := SetCurrentMonth(currentMonth + 1);
      }
    }
  }
}
