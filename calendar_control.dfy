/** The calendar control of the SubTrack.Controls revision: it keeps its own
    year and month, draws the grid into a fresh layout, and has previous and
    next buttons. */
module CalendarControl {
  import opened Common
  import opened Gregorian
  import opened CalendarGrid
  import opened MonthCursor

  /** `_days`: full weekday names, Monday first. */
  const DayNames: seq<string> := ["Lundi", "Mardi", "Mercredi", "Jeudi", "Vendredi", "Samedi", "Dimanche"]

  /** The first three letters of each full name are the labels of the other
      revision, so both draw the same header. */
  lemma DayNamePrefixes()
    ensures |DayNames| == 7
    ensures forall i :: 0 <= i < 7 ==> |DayNames[i]| >= 3 && DayNames[i][..3] == ShortDayNames[i]
  {
    assert DayNames[0][..3] == "Lun";
    assert DayNames[1][..3] == "Mar";
    assert DayNames[2][..3] == "Mer";
    assert DayNames[3][..3] == "Jeu";
    assert DayNames[4][..3] == "Ven";
    assert DayNames[5][..3] == "Sam";
    assert DayNames[6][..3] == "Dim";
  }

  /** A built grid: its column and row definitions and its children. */
  datatype GridContent = GridContent(columnCount: int, rowCount: int, children: seq<Cell>)

  /** What `Content` holds after `GenerateCalendar`: the grid, or null when
      building it threw for a year outside the `DateTime` range. */
  function Rendered(year: int, month: int): (r: Option<GridContent>)
    ensures r.Some? <==> InDateTimeRange(year, month)
  {
    if InDateTimeRange(year, month) then Some(GridContent(7, RowCount(year, month), Layout(year, month, None)))
    else None
  }

  /** `CreateCalendarGrid`: seven columns and `GetNumberOfRowsForMonth` rows;
      the loop condition throws on its first evaluation outside the range. */
  method CreateCalendarGrid(year: int, month: int) returns (r: Result<GridContent>)
    ensures r.Ok? <==> InDateTimeRange(year, month)
    ensures r.Err? ==> r.error == ArgumentOutOfRange
    ensures r.Ok? ==> r.value == GridContent(7, RowCount(year, month), [])
  {
    var columns := 0;
    for i := 0 to 7
      invariant columns == i
    {
      columns := columns + 1;
    }
    var days := DaysInMonth(year, month);
    if days.Err? {
      return Err(days.error);
    }
    var rows := 0;
    while rows < RowCount(year, month)
      invariant rows <= RowCount(year, month)
    {
      rows := rows + 1;
    }
    r := Ok(GridContent(columns, rows, []));
  }

  /** `AddDayLabels`: row 0 receives the first three letters of each day name. */
  method AddDayLabels(grid: GridContent) returns (r: GridContent)
    ensures r == grid.(children := grid.children + HeaderCells())
  {
    DayNamePrefixes();
    r := grid;
    for i := 0 to |DayNames|
      invariant r == grid.(children := grid.children + HeaderCells()[..i])
    {
      assert HeaderCells()[..i + 1] == HeaderCells()[..i] + [Cell(Label(DayNames[i][..3]), 0, i)];
      r := r.(children := r.children + [Cell(Label(DayNames[i][..3]), 0, i)]);
    }
    assert HeaderCells()[..7] == HeaderCells();
  }

  /** `AddDayNumbers`: one unflagged numbered cell per day. It runs only after
      `CreateCalendarGrid` succeeded, so the date is in range. */
  method AddDayNumbers(year: int, month: int, grid: GridContent) returns (r: GridContent)
    requires InDateTimeRange(year, month)
    ensures r == grid.(children := grid.children + DayCells(year, month, None))
  {
    var startDayOfWeek := DayOfWeek(year, month, 1);
    startDayOfWeek := if startDayOfWeek == 0 then 6 else startDayOfWeek - 1;
    assert startDayOfWeek == StartOffset(year, month);
    var daysInMonth := DaysInMonth(year, month).value;
    ghost var dayCells := DayCells(year, month, None);
    r := grid;
    for i := 0 to daysInMonth
      invariant r == grid.(children := grid.children + dayCells[..i])
    {
      var row := DayRow(startDayOfWeek, i);
      var column := DayColumn(startDayOfWeek, i);
      DayCellAt(year, month, None, startDayOfWeek, i);
      assert dayCells[..i + 1] == dayCells[..i] + [dayCells[i]];
      r := r.(children := r.children + [Cell(Number(i + 1, false), row, column)]);
    }
    assert dayCells[..daysInMonth] == dayCells;
  }

  class CalendarComponent {
    var currentYear: int
    var currentMonth: int
    var content: Option<GridContent>

    function Cursor(): YearMonth
      reads this
    {
      YearMonth(currentYear, currentMonth)
    }

    /** `SetCurrentDate` from the clock, then `GenerateCalendar`. */
    constructor (now: DateTime)
      requires IsRepresentable(now)
      ensures Cursor() == YearMonth(now.year, now.month) && Valid(Cursor())
      ensures content == Rendered(currentYear, currentMonth) && content.Some?
    {
      currentYear := now.year;
      currentMonth := now.month;
      content := None;
      new;
      var _ := GenerateCalendar();
    }

    /** `GenerateCalendar`: drop the content, then build and install the grid
        for the current year and month. Outside the `DateTime` range the
        exception of `CreateCalendarGrid` escapes, leaving the content null. */
    method GenerateCalendar() returns (r: Outcome)
      modifies this
      ensures Cursor() == old(Cursor())
      ensures r.Pass? <==> InDateTimeRange(currentYear, currentMonth)
      ensures r.Fail? ==> r.error == ArgumentOutOfRange
      ensures content == Rendered(currentYear, currentMonth)
    {
      content := None;
      var grid := CreateCalendarGrid(currentYear, currentMonth);
      if grid.Err? {
        return Fail(grid.error);
      }
      var withLabels := AddDayLabels(grid.value);
      var withNumbers := AddDayNumbers(currentYear, currentMonth, withLabels);
      assert [] + HeaderCells() + DayCells(currentYear, currentMonth, None) == Layout(currentYear, currentMonth, None);
      content := Some(withNumbers);
      r := Pass;
    }

    /** `OnPreviousButtonClicked`. */
    method OnPreviousButtonClicked() returns (r: Outcome)
      modifies this
      ensures Cursor() == Previous(old(Cursor()))
      ensures old(Valid(Cursor())) ==> Valid(Cursor())
      ensures r.Pass? <==> InDateTimeRange(currentYear, currentMonth)
      ensures r.Fail? ==> r.error == ArgumentOutOfRange
      ensures content == Rendered(currentYear, currentMonth)
    {
      if currentMonth == 1 {
        currentMonth := 12;
        currentYear := currentYear - 1;
      } else {
        currentMonth := currentMonth - 1;
      }
      r := GenerateCalendar();
    }

    /** `OnNextButtonClicked`. */
    method OnNextButtonClicked() returns (r: Outcome)
      modifies this
      ensures Cursor() == Next(old(Cursor()))
      ensures old(Valid(Cursor())) ==> Valid(Cursor())
      ensures r.Pass? <==> InDateTimeRange(currentYear, currentMonth)
      ensures r.Fail? ==> r.error == ArgumentOutOfRange
      ensures content == Rendered(currentYear, currentMonth)
    {
      if currentMonth == 12 {
        currentMonth := 1;
        currentYear := currentYear + 1;
      } else {
        currentMonth := currentMonth + 1;
      }
      r := GenerateCalendar();
    }
  }

  /** A click on "next" followed by a click on "previous" shows the original
      month again, grid included. The first click fails exactly when the next
      month leaves the `DateTime` range (from December 9999), and the second
      exactly when the original month is outside it. */
  method NextThenPrevious(c: CalendarComponent) returns (first: Outcome, second: Outcome)
    requires Valid(c.Cursor())
    modifies c
    ensures c.Cursor() == old(c.Cursor()) && c.content == Rendered(c.currentYear, c.currentMonth)
    ensures first.Pass? <==> InDateTimeRange(Next(old(c.Cursor())).year, Next(old(c.Cursor())).month)
    ensures second.Pass? <==> InDateTimeRange(c.currentYear, c.currentMonth)
  {
    ghost var start := c.Cursor();
    first := c.OnNextButtonClicked();
    second := c.OnPreviousButtonClicked();
    PreviousNextRoundTrip(start);
  }
}
