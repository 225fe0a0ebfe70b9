/** The displayed (year, month) and its previous/next navigation, shared by
    both calendar controls and the calendar view-model. */
module MonthCursor {

  datatype YearMonth = YearMonth(year: int, month: int)

  predicate Valid(c: YearMonth) {
    1 <= c.month <= 12
  }

  /** The "next" handlers: December rolls over to January of the next year. */
  function Next(c: YearMonth): (r: YearMonth)
    ensures Valid(c) ==> Valid(r) && Index(r) == Index(c) + 1
  {
    if c.month == 12 then YearMonth(c.year + 1, 1) else YearMonth(c.year, c.month + 1)
  }

  /** The "previous" handlers: January rolls back to December of the previous year. */
  function Previous(c: YearMonth): (r: YearMonth)
    ensures Valid(c) ==> Valid(r) && Index(r) == Index(c) - 1
  {
    if c.month == 1 then YearMonth(c.year - 1, 12) else YearMonth(c.year, c.month - 1)
  }

  /** Months elapsed since January of year 0: a reference numbering of cursors. */
  function Index(c: YearMonth): int {
    c.year * 12 + c.month - 1
  }

  /** The cursor with a given index. */
  function FromIndex(n: int): (c: YearMonth)
    ensures Valid(c) && Index(c) == n
  {
    YearMonth(n / 12, n % 12 + 1)
  }

  /** Numbering a valid cursor and taking the cursor of that number gives it back. */
  lemma FromIndexInverse(c: YearMonth)
    requires Valid(c)
    ensures FromIndex(Index(c)) == c
  {
    IndexInjective(FromIndex(Index(c)), c);
  }

  /** Valid cursors are determined by their index. */
  lemma IndexInjective(a: YearMonth, b: YearMonth)
    requires Valid(a) && Valid(b) && Index(a) == Index(b)
    ensures a == b
  {
  }

  /** Next moves a valid cursor one month forward and keeps it valid. */
  lemma NextIsSuccessor(c: YearMonth)
    requires Valid(c)
    ensures Valid(Next(c)) && Index(Next(c)) == Index(c) + 1
  {
  }

  /** Previous moves a valid cursor one month back and keeps it valid. */
  lemma PreviousIsPredecessor(c: YearMonth)
    requires Valid(c)
    ensures Valid(Previous(c)) && Index(Previous(c)) == Index(c) - 1
  {
  }

  /** Previous undoes Next, and Next undoes Previous. */
  lemma PreviousNextRoundTrip(c: YearMonth)
    requires Valid(c)
    ensures Previous(Next(c)) == c && Next(Previous(c)) == c
  {
    NextIsSuccessor(c);
    PreviousIsPredecessor(c);
    PreviousIsPredecessor(Next(c));
    NextIsSuccessor(Previous(c));
    IndexInjective(Previous(Next(c)), c);
    IndexInjective(Next(Previous(c)), c);
  }

  /** `n` presses of "next". */
  function Advance(c: YearMonth, n: nat): YearMonth {
    if n == 0 then c else Next(Advance(c, n - 1))
  }

  /** `n` presses of "next" move a valid cursor `n` months forward. */
  lemma {:induction false} AdvanceIndex(c: YearMonth, n: nat)
    requires Valid(c)
    ensures Valid(Advance(c, n)) && Index(Advance(c, n)) == Index(c) + n
  {
    if n > 0 {
      AdvanceIndex(c, n - 1);
      NextIsSuccessor(Advance(c, n - 1));
    }
  }

  /** Twelve presses of "next" give the same month of the following year. */
  lemma TwelveNexts(c: YearMonth)
    requires Valid(c)
    ensures Advance(c, 12) == YearMonth(c.year + 1, c.month)
  {
    AdvanceIndex(c, 12);
    IndexInjective(Advance(c, 12), YearMonth(c.year + 1, c.month));
  }
}
