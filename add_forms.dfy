/** The two "add" forms: bound fields, a guard on title and amount, and the
    record handed to the `OperationAdded` / `ExpenseAdded` subscribers. */
module AddForms {
  import opened Common
  import opened Gregorian
  import opened Text
  import opened Models
  import opened MonthlyExpenses

  /** The category choices both forms offer, in order. */
  const DefaultCategories: seq<string> := ["Alimentation", "Transport", "Logement", "Divertissement", "Autre"]

  /** The guard of both forms: a title that is not null or white space and a
      positive amount. The category is not looked at. */
  predicate CanSubmit(title: Option<string>, amount: real) {
    !IsNullOrWhiteSpace(title) && amount > 0.0
  }

  class AddFinancialOperationViewModel {
    var operationTitle: Option<string>
    var selectedOperationDate: DateTime
    var operationAmount: real
    var operationCategory: Option<string>
    var isOperationRecurrent: bool
    const categories: seq<string>

    /** Fixed categories and the date preset to "now"; the other fields keep
        their defaults. */
    constructor (now: DateTime)
      ensures categories == DefaultCategories && selectedOperationDate == now
      ensures operationTitle == None && operationAmount == 0.0 && operationCategory == None && !isOperationRecurrent
    {
      categories := DefaultCategories;
      selectedOperationDate := now;
      operationTitle, operationAmount, operationCategory, isOperationRecurrent := None, 0.0, None, false;
    }

    /** `ValidateAddOperation`: the operation raised with `OperationAdded`,
        or `None` when the guard fails. */
    method ValidateAddOperation() returns (emitted: Option<FinancialOperation>)
      ensures emitted.Some? <==> CanSubmit(operationTitle, operationAmount)
      ensures emitted.Some? ==>
        && emitted.value.title == operationTitle && emitted.value.amount == operationAmount
        && emitted.value.date == selectedOperationDate && emitted.value.category == operationCategory
        && emitted.value.recurring == isOperationRecurrent
    {
      if IsNullOrWhiteSpace(operationTitle) || operationAmount <= 0.0 {
        return None;
      }
      emitted := Some(FinancialOperation(0, operationTitle, operationAmount, selectedOperationDate,
                                         operationCategory, isOperationRecurrent));
    }
  }

  class AddMonthlyExpenseViewModel {
    var expenseTitle: Option<string>
    var selectedExpenseDate: DateTime
    var expenseAmount: real
    var expenseCategory: Option<string>
    var isExpenseRecurrent: bool
    const categories: seq<string>

    /** Fixed categories and the date preset to "now"; the other fields keep
        their defaults. */
    constructor (now: DateTime)
      ensures categories == DefaultCategories && selectedExpenseDate == now
      ensures expenseTitle == None && expenseAmount == 0.0 && expenseCategory == None && !isExpenseRecurrent
    {
      categories := DefaultCategories;
      selectedExpenseDate := now;
      expenseTitle, expenseAmount, expenseCategory, isExpenseRecurrent := None, 0.0, None, false;
    }

    /** `ValidateAddExpense`: the expense raised with `ExpenseAdded`, or
        `None` when the guard fails. */
    method ValidateAddExpense() returns (emitted: Option<Expense>)
      ensures emitted.Some? <==> CanSubmit(expenseTitle, expenseAmount)
      ensures emitted.Some? ==>
        && emitted.value.title == expenseTitle && emitted.value.amount == expenseAmount
        && emitted.value.date == selectedExpenseDate && emitted.value.category == expenseCategory
        && emitted.value.recurring == isExpenseRecurrent
    {
      if IsNullOrWhiteSpace(expenseTitle) || expenseAmount <= 0.0 {
        return None;
      }
      emitted := Some(Expense(0, expenseTitle, expenseAmount, selectedExpenseDate,
                              expenseCategory, isExpenseRecurrent));
    }
  }

  /** What the expense form emits passes the calendar page's check exactly
      when its category is not null or empty and its date is set: the form
      leaves the category unchecked, the page does not. */
  lemma EmittedExpenseAcceptedByPage(title: Option<string>, amount: real, date: DateTime,
                                     category: Option<string>, recurring: bool)
    requires CanSubmit(title, amount)
    ensures IsComplete(Expense(0, title, amount, date, category, recurring))
            <==> !IsNullOrEmpty(category) && date != DefaultDateTime
  {
    NotWhiteSpaceIsNotEmpty(title);
  }

  /** A form left on its default category (null) emits an expense that the
      page then rejects with `InvalidOperationException`. */
  lemma DefaultCategoryRejectedByPage(title: Option<string>, amount: real, now: DateTime, recurring: bool)
    requires CanSubmit(title, amount)
    ensures !IsComplete(Expense(0, title, amount, now, None, recurring))
  {
  }

  /** The guard with the page's own requirements added: a category that is
      not null or empty and a date that is not the default. */
  predicate CanSubmitChecked(title: Option<string>, amount: real, date: DateTime, category: Option<string>) {
    CanSubmit(title, amount) && !IsNullOrEmpty(category) && date != DefaultDateTime
  }

  /** With the checked guard, every expense the form emits is accepted by the
      page, and the form still emits everything the page accepts whose title
      is not white space. */
  lemma CheckedGuardAcceptedByPage(title: Option<string>, amount: real, date: DateTime,
                                   category: Option<string>, recurring: bool)
    ensures CanSubmitChecked(title, amount, date, category) ==>
              IsComplete(Expense(0, title, amount, date, category, recurring))
    ensures IsComplete(Expense(0, title, amount, date, category, recurring)) && !IsNullOrWhiteSpace(title) ==>
              CanSubmitChecked(title, amount, date, category)
  {
    if CanSubmit(title, amount) {
      NotWhiteSpaceIsNotEmpty(title);
    }
  }
}
