/** Optional values and results, the exceptions the core throws, the boxed
    values that MAUI value converters receive, and the names carried by
    property-change notifications. */
module Common {

  /** A nullable reference (`string?`, `Expense?`). */
  datatype Option<+T> = None | Some(value: T)

  /** The .NET exception classes thrown by the modelled code. */
  datatype Error =
    | ArgumentOutOfRange   // System.ArgumentOutOfRangeException
    | Argument             // System.ArgumentException
    | InvalidOperation     // System.InvalidOperationException
    | General              // a plain System.Exception

  /** A value, or the exception thrown instead of returning one. */
  datatype Result<+T> = Ok(value: T) | Err(error: Error)

  /** A method that returns nothing, or the exception it threw. */
  datatype Outcome = Pass | Fail(error: Error)

  /** The `object?` a value converter is handed by the binding engine,
      distinguished by the runtime type tests the converters make. */
  datatype Boxed =
    | Null
    | BoxedInt(i: int)
    | BoxedBool(b: bool)
    | BoxedString(s: string)
    | BoxedOther

  /** The property names passed to `OnPropertyChanged`. */
  datatype PropertyName =
    | CurrentYear
    | CurrentMonth
    | CurrentMonthName
    | CurrentBalance
    | Expenses
}
