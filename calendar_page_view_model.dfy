/** The calendar page: the expenses of the displayed month, their balance,
    deletion by identifier, the handler for a newly added expense, and the
    reload when the calendar's month or year changes. */
module CalendarPage {
  import opened Common
  import opened Gregorian
  import opened Models
  import opened MonthCursor
  import opened MonthlyExpenses
  import opened ExpenseStores
  import opened CalendarItemViewModels

  /** The calendar notifications that make the page reload. */
  predicate TriggersReload(p: PropertyName) {
    p == CurrentMonth || p == CurrentYear
  }

  class CalendarPageViewModel {
    var currentBalance: real
    var expenses: seq<Expense>
    const calendar: CalendarItemViewModel
    /** `Database.Instance`. */
    const store: ExpenseStore

    /** The list shows the stored expenses of the displayed month and the
        balance is their negated sum. */
    predicate Consistent()
      reads this, calendar, store
    {
      expenses == MonthFilter(store.records, calendar.Cursor()) && currentBalance == NegSum(expenses)
    }

    predicate Valid()
      reads this, calendar, store
    {
      calendar.Valid() && store.Valid() && Consistent()
    }

    /** Balance 10000, a calendar on the current month, then `LoadExpenses`. */
    constructor (store: ExpenseStore, now: DateTime)
      requires store.Valid() && IsRepresentable(now)
      ensures Valid() && fresh(calendar) && this.store == store
      ensures calendar.Cursor() == YearMonth(now.year, now.month)
    {
      this.store := store;
      calendar := new CalendarItemViewModel(now);
      currentBalance, expenses := 0.0, [];
      new;
      var _ := SetCurrentBalance(10000.0);
      LoadExpenses();
    }

    /** The `CurrentBalance` setter: assigns and notifies only on a change. */
    method SetCurrentBalance(value: real) returns (raised: seq<PropertyName>)
      modifies this
      ensures currentBalance == value && expenses == old(expenses)
      ensures raised == if old(currentBalance) == value then [] else [CurrentBalance]
    {
      raised := [];
      if currentBalance != value {
        currentBalance := value;
        raised := [CurrentBalance];
      }
    }

    /** `UpdateCurrentBalance`. */
    method UpdateCurrentBalance()
      modifies this
      ensures currentBalance == NegSum(expenses) && expenses == old(expenses)
    {
      var total := SumOfNegatedAmounts(expenses);
      var _ := SetCurrentBalance(total);
    }

    /** `LoadExpenses`: clear the list, keep each stored expense whose month
        and year are the calendar's, then recompute the balance. */
    method LoadExpenses()
      modifies this
      ensures Consistent()
    {
      expenses := [];
      var all := store.records;
      for i := 0 to |all|
        invariant expenses == MonthFilter(all[..i], calendar.Cursor())
      {
        assert all[..i + 1][..i] == all[..i];
        if all[i].date.month == calendar.currentMonth && all[i].date.year == calendar.currentYear {
          expenses := expenses + [all[i]];
        }
      }
      assert all[..|all|] == all;
      UpdateCurrentBalance();
    }

    /** `DeleteExpense`: remove the first listed expense with that identifier,
        delete the identifier from the store and recompute the balance; with
        no listed match nothing happens. */
    method DeleteExpense(id: int)
      requires Valid()
      modifies this, store
      ensures Valid()
      ensures (exists k: nat :: IsFirstWithId(old(expenses), id, k)) ==>
        exists k: nat :: IsFirstWithId(old(expenses), id, k)
          && expenses == RemoveAt(old(expenses), k)
          && store.records == RemoveId(old(store.records), id)
          && currentBalance == old(currentBalance) + old(expenses)[k].amount
      ensures (forall j :: 0 <= j < |old(expenses)| ==> old(expenses)[j].id != id) ==>
        expenses == old(expenses) && store.records == old(store.records) && currentBalance == old(currentBalance)
    {
      var k := FindFirstById(expenses, id);
      if k.Some? {
        ghost var before, beforeRecords := expenses, store.records;
        expenses := RemoveAt(expenses, k.value);
        store.DeleteById(id);
        MonthFilterAfterDelete(beforeRecords, calendar.Cursor(), k.value);
        NegSumRemoveAt(before, k.value);
        UpdateCurrentBalance();
        assert IsFirstWithId(before, id, k.value);
      } else {
        assert forall j :: 0 <= j < |expenses| ==> expenses[j].id != id;
      }
    }

    /** `OnExpenseAdded`: a null expense is ignored; an incomplete one throws
        `InvalidOperationException` with nothing stored; a complete one is
        stored and the list reloaded. */
    method OnExpenseAdded(newExpense: Option<Expense>) returns (r: Outcome)
      requires Valid()
      modifies this, store
      ensures Valid()
      ensures r.Fail? <==> newExpense.Some? && !IsComplete(newExpense.value)
      ensures r.Fail? ==> r.error == InvalidOperation
      ensures newExpense.None? || r.Fail? ==>
        store.records == old(store.records) && expenses == old(expenses) && currentBalance == old(currentBalance)
      ensures newExpense.Some? && r.Pass? ==>
        var stored := newExpense.value.(id := old(store.nextId));
        && store.records == old(store.records) + [stored]
        && expenses == old(expenses) + (if InMonth(stored, calendar.Cursor()) then [stored] else [])
    {
      r := Pass;
      if newExpense.Some? {
        var e := newExpense.value;
        if !IsComplete(e) {
          return Fail(InvalidOperation);
        }
        ghost var beforeRecords := store.records;
        store.Add(e);
        assert store.records[..|store.records| - 1] == beforeRecords;
        LoadExpenses();
      }
    }

    /** `CalendarViewModel_PropertyChanged`: reload on a month or year change,
        ignore every other notification. */
    method OnCalendarPropertyChanged(p: PropertyName)
      modifies this
      ensures TriggersReload(p) ==> Consistent()
      ensures !TriggersReload(p) ==> expenses == old(expenses) && currentBalance == old(currentBalance)
    {
      if p == CurrentMonth || p == CurrentYear {
        LoadExpenses();
      }
    }

    /** Deliver the notifications of a calendar command, in order. */
    method DeliverCalendarNotifications(raised: seq<PropertyName>)
      modifies this
      ensures (exists j :: 0 <= j < |raised| && TriggersReload(raised[j])) ==> Consistent()
      ensures (forall j :: 0 <= j < |raised| ==> !TriggersReload(raised[j])) ==>
        expenses == old(expenses) && currentBalance == old(currentBalance)
    {
      for i := 0 to |raised|
        invariant (exists j :: 0 <= j < i && TriggersReload(raised[j])) ==> Consistent()
        invariant (forall j :: 0 <= j < i ==> !TriggersReload(raised[j])) ==>
          expenses == old(expenses) && currentBalance == old(currentBalance)
      {
        OnCalendarPropertyChanged(raised[i]);
      }
    }

    /** The calendar's previous-month command, with its notifications
        delivered to this page. */
    method PreviousMonth()
      requires Valid()
      modifies this, calendar
      ensures Valid()
      ensures calendar.Cursor() == Previous(old(calendar.Cursor()))
      ensures store.records == old(store.records)
    {
      var raised, ok := calendar.OnPreviousMonth();
      DeliverCalendarNotifications(raised);
    }

    /** The calendar's next-month command, with its notifications delivered
        to this page. */
    method NextMonth()
      requires Valid()
      modifies this, calendar
      ensures Valid()
      ensures calendar.Cursor() == Next(old(calendar.Cursor()))
      ensures store.records == old(store.records)
    {
      var raised, ok := calendar.OnNextMonth();
      DeliverCalendarNotifications(raised);
    }
  }
}
