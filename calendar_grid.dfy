/** The month grid of the calendar control: seven Monday-first columns, a
    header row 0 with the weekday labels, and one cell per day below it. */
module CalendarGrid {
  import opened Common
  import opened Gregorian

  /** Weekday of the first of the month in Monday-first order (Monday = 0 ...
      Sunday = 6, the order of section 3.2.2 of ISO 8601:2004), obtained from
      .NET's Sunday = 0 numbering by sending Sunday to 6 and w to w - 1. */
  function StartOffset(year: int, month: int): (r: int)
    requires 1 <= month <= 12
    ensures 0 <= r <= 6
    ensures r == DayNumber(year, month, 1) % 7
    ensures DayOfWeek(year, month, 1) == 0 <==> r == 6
    ensures DayOfWeek(year, month, 1) == 1 <==> r == 0
  {
    var w := DayOfWeek(year, month, 1);
    SundayFirstToMondayFirst(DayNumber(year, month, 1));
    if w == 0 then 6 else w - 1
  }

  /** Day count n has Sunday-first weekday (n + 1) % 7 and Monday-first weekday n % 7. */
  lemma SundayFirstToMondayFirst(n: int)
    ensures (n + 1) % 7 == 0 ==> n % 7 == 6
    ensures (n + 1) % 7 != 0 ==> n % 7 == (n + 1) % 7 - 1
  {
  }

  /** 1 January 2025 is a Wednesday, so January 2025 starts in column 2. */
  lemma StartOffsetOfJanuary2025()
    ensures StartOffset(2025, 1) == 2
  {
    FirstOf2025IsWednesday();
  }

  /** `GetNumberOfRowsForMonth`: the rows the day cells need, rounded up,
      plus the header row. */
  function RowCount(year: int, month: int): (r: int)
    requires 1 <= month <= 12
    ensures (r - 1) * 7 >= MonthLength(year, month) + StartOffset(year, month)
    ensures (r - 2) * 7 < MonthLength(year, month) + StartOffset(year, month)
    ensures 5 <= r <= 7
  {
    CeilDiv(MonthLength(year, month) + StartOffset(year, month), 7) + 1
  }

  /** `Math.Ceiling(a / (double)b)` for the small non-negative integers it is used on. */
  function CeilDiv(a: nat, b: nat): (q: nat)
    requires b > 0
    ensures q * b >= a && (q - 1) * b < a
  {
    (a + b - 1) / b
  }

  /** Row of the zero-based day index `i` when day 1 sits in column `offset`. */
  function DayRow(offset: int, i: int): (r: int)
    ensures (r - 1) * 7 <= i + offset < r * 7
  {
    (i + offset) / 7 + 1
  }

  /** Column of the zero-based day index `i` when day 1 sits in column `offset`. */
  function DayColumn(offset: int, i: int): (r: int)
    ensures 0 <= r < 7
    ensures i + offset == (DayRow(offset, i) - 1) * 7 + r
  {
    (i + offset) % 7
  }

  /** The day index a cell holds: the inverse of the placement. */
  function DayIndexAt(offset: int, row: int, column: int): int {
    (row - 1) * 7 + column - offset
  }

  /** Placement and `DayIndexAt` undo each other, and a placed day lands in a
      column of the grid and below the header row. */
  lemma PlacementInverse(offset: int, i: int)
    requires 0 <= offset <= 6 && 0 <= i
    ensures DayIndexAt(offset, DayRow(offset, i), DayColumn(offset, i)) == i
    ensures 0 <= DayColumn(offset, i) < 7 && DayRow(offset, i) >= 1
  {
  }

  /** Two different days of a month never share a cell. */
  lemma PlacementInjective(offset: int, i: int, j: int)
    requires 0 <= offset <= 6 && 0 <= i && 0 <= j && i != j
    ensures DayRow(offset, i) != DayRow(offset, j) || DayColumn(offset, i) != DayColumn(offset, j)
  {
    PlacementInverse(offset, i);
    PlacementInverse(offset, j);
  }

  /** Every day of the month lands inside the rows `RowCount` reserves. */
  lemma DaysFitRows(year: int, month: int, i: int)
    requires 1 <= month <= 12 && 0 <= i < MonthLength(year, month)
    ensures 1 <= DayRow(StartOffset(year, month), i) < RowCount(year, month)
    ensures 0 <= DayColumn(StartOffset(year, month), i) < 7
  {
    var o, n, r := StartOffset(year, month), MonthLength(year, month), RowCount(year, month);
    assert (DayRow(o, i) - 1) * 7 <= i + o < n + o <= (r - 1) * 7;
  }

  /** Day 1 lands in row 1 at column `offset`; each next day moves one column
      right, or to column 0 of the next row after column 6. */
  lemma ConsecutiveDays(offset: int, i: int)
    requires 0 <= offset <= 6 && 0 <= i
    ensures DayRow(offset, 0) == 1 && DayColumn(offset, 0) == offset
    ensures DayColumn(offset, i) < 6 ==>
      DayRow(offset, i + 1) == DayRow(offset, i) && DayColumn(offset, i + 1) == DayColumn(offset, i) + 1
    ensures DayColumn(offset, i) == 6 ==>
      DayRow(offset, i + 1) == DayRow(offset, i) + 1 && DayColumn(offset, i + 1) == 0
  {
  }

  /** The header labels, Monday first. */
  const ShortDayNames: seq<string> := ["Lun", "Mar", "Mer", "Jeu", "Ven", "Sam", "Dim"]

  /** What a grid cell shows. */
  datatype CellContent =
    | Label(text: string)
    | Number(day: int, actualDay: bool)

  /** A child of the grid with its `Grid.Row` and `Grid.Column`. */
  datatype Cell = Cell(content: CellContent, row: int, column: int)

  /** Whether the zero-based day `i` of the displayed month is today; the
      revision without highlighting passes `None`. */
  predicate IsActualDay(year: int, month: int, i: int, now: Option<DateTime>) {
    now.Some? && i + 1 == now.value.day && month == now.value.month && year == now.value.year
  }

  /** The header row: one weekday label per column of row 0, Monday first. */
  function HeaderCells(): (r: seq<Cell>)
    ensures |r| == 7
    ensures forall k :: 0 <= k < |r| ==> r[k].row == 0 && r[k].column == k && r[k].content.Label?
    ensures r[0].content.text == "Lun" && r[6].content.text == "Dim"
  {
    seq(7, k requires 0 <= k < 7 => Cell(Label(ShortDayNames[k]), 0, k))
  }

  function DayCell(year: int, month: int, i: int, now: Option<DateTime>): Cell
    requires 1 <= month <= 12
  {
    var o := StartOffset(year, month);
    Cell(Number(i + 1, IsActualDay(year, month, i, now)), DayRow(o, i), DayColumn(o, i))
  }

  function DayCells(year: int, month: int, now: Option<DateTime>): seq<Cell>
    requires 1 <= month <= 12
  {
    seq(MonthLength(year, month), i requires 0 <= i < MonthLength(year, month) => DayCell(year, month, i, now))
  }

  /** The i-th day cell, written out with the offset already computed. */
  lemma DayCellAt(year: int, month: int, now: Option<DateTime>, offset: int, i: int)
    requires 1 <= month <= 12 && offset == StartOffset(year, month)
    requires 0 <= i < MonthLength(year, month)
    ensures DayCells(year, month, now)[i]
            == Cell(Number(i + 1, IsActualDay(year, month, i, now)), DayRow(offset, i), DayColumn(offset, i))
  {
  }

  /** The children of a generated grid, in the order they are added. */
  function Layout(year: int, month: int, now: Option<DateTime>): seq<Cell>
    requires 1 <= month <= 12
  {
    HeaderCells() + DayCells(year, month, now)
  }

  /** Every cell of the layout lies in the 7 x `RowCount` grid; row 0 holds
      exactly the seven labels, Lun..Dim in columns 0..6, and nothing else. */
  lemma LayoutFitsGrid(year: int, month: int, now: Option<DateTime>)
    requires 1 <= month <= 12
    ensures var cells := Layout(year, month, now);
      && |cells| == 7 + MonthLength(year, month)
      && (forall k :: 0 <= k < |cells| ==>
            0 <= cells[k].row < RowCount(year, month) && 0 <= cells[k].column < 7)
      && (forall k :: 0 <= k < |cells| ==> (cells[k].row == 0 <==> k < 7))
      && (forall k :: 0 <= k < 7 ==> cells[k] == Cell(Label(ShortDayNames[k]), 0, k))
  {
    var cells := Layout(year, month, now);
    forall k | 7 <= k < |cells|
      ensures 1 <= cells[k].row < RowCount(year, month) && 0 <= cells[k].column < 7
    {
      DaysFitRows(year, month, k - 7);
    }
  }

  /** No two children of the layout occupy the same (row, column). */
  lemma LayoutCellsDistinct(year: int, month: int, now: Option<DateTime>)
    requires 1 <= month <= 12
    ensures var cells := Layout(year, month, now);
      forall j, k :: 0 <= j < k < |cells| ==>
        cells[j].row != cells[k].row || cells[j].column != cells[k].column
  {
    var cells := Layout(year, month, now);
    var o := StartOffset(year, month);
    forall j, k | 0 <= j < k < |cells|
      ensures cells[j].row != cells[k].row || cells[j].column != cells[k].column
    {
      if 7 <= j {
        PlacementInjective(o, j - 7, k - 7);
      } else if 7 <= k {
        DaysFitRows(year, month, k - 7);
      }
    }
  }

  /** Given a valid "now", at most one day cell is flagged, and one is flagged
      exactly when the displayed month and year are today's. */
  lemma ActualDayUnique(year: int, month: int, now: DateTime)
    requires 1 <= month <= 12 && IsValidDate(now)
    ensures forall i, j :: 0 <= i < j ==> !(IsActualDay(year, month, i, Some(now)) && IsActualDay(year, month, j, Some(now)))
    ensures (exists i :: 0 <= i < MonthLength(year, month) && IsActualDay(year, month, i, Some(now)))
            <==> (year == now.year && month == now.month)
  {
    if year == now.year && month == now.month {
      assert IsActualDay(year, month, now.day - 1, Some(now));
    }
  }

  /** The grid view of the calendar control, as `GenerateCalendar` leaves it. */
  class CalendarGridView {
    var columnCount: int
    var rowCount: int
    var children: seq<Cell>

    constructor ()
      ensures columnCount == 0 && rowCount == 0 && children == []
    {
      columnCount, rowCount, children := 0, 0, [];
    }

    /** `GenerateCalendar`: clear the grid, add seven columns and the rows,
        then the seven header labels and one numbered cell per day, flagging
        the cell of today. Out of the `DateTime` range the row computation
        throws after the grid was cleared and its columns added. */
    method GenerateCalendar(year: int, month: int, now: DateTime) returns (r: Outcome)
      modifies this
      ensures r.Pass? <==> InDateTimeRange(year, month)
      ensures r.Fail? ==> r.error == ArgumentOutOfRange && columnCount == 7 && rowCount == 0 && children == []
      ensures r.Pass? ==> columnCount == 7 && rowCount == RowCount(year, month)
                          && children == Layout(year, month, Some(now))
    {
      children, rowCount, columnCount := [], 0, 0;
      for i := 0 to 7
        invariant columnCount == i && rowCount == 0 && children == []
      {
        columnCount := columnCount + 1;
      }

      var days := DaysInMonth(year, month);
      if days.Err? {
        return Fail(days.error);
      }
      var rows := RowCount(year, month);
      for i := 0 to rows
        invariant rowCount == i && columnCount == 7 && children == []
      {
        rowCount := rowCount + 1;
      }

      var labels := ["Lun", "Mar", "Mer", "Jeu", "Ven", "Sam", "Dim"];
      for i := 0 to 7
        invariant children == HeaderCells()[..i]
        invariant rowCount == rows && columnCount == 7
      {
        children := children + [Cell(Label(labels[i]), 0, i)];
      }

      var startDayOfWeek := DayOfWeek(year, month, 1);
      startDayOfWeek := if startDayOfWeek == 0 then 6 else startDayOfWeek - 1;
      assert startDayOfWeek == StartOffset(year, month);
      var daysInMonth := days.value;
      ghost var dayCells := DayCells(year, month, Some(now));
      for i := 0 to daysInMonth
        invariant children == HeaderCells() + dayCells[..i]
        invariant rowCount == rows && columnCount == 7
      {
        var isActualDay := IsActualDay(year, month, i, Some(now));
        var row := DayRow(startDayOfWeek, i);
        var column := DayColumn(startDayOfWeek, i);
        DayCellAt(year, month, Some(now), startDayOfWeek, i);
        assert dayCells[..i + 1] == dayCells[..i] + [dayCells[i]];
        children := children + [Cell(Number(i + 1, isActualDay), row, column)];
      }
      assert dayCells[..daysInMonth] == dayCells;
      r := Pass;
    }
  }
}
