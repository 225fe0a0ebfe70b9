/** `NumberToMonthConverter`: month number to French month name and back. */
module NumberToMonthConverter {
  import opened Common
  import opened Text
  import CalendarItemViewModels

  /** `Convert`: an int in 1..12 becomes its French name; another int is out
      of range; anything else is not an int. */
  function Convert(value: Boxed): (r: Result<string>)
    ensures r.Ok? <==> value.BoxedInt? && 1 <= value.i <= 12
    ensures value.BoxedInt? && !(1 <= value.i <= 12) ==> r == Err(ArgumentOutOfRange)
    ensures !value.BoxedInt? ==> r == Err(Argument)
  {
    match value
    case BoxedInt(month) => (
      match month
      case 1 => Ok("Janvier")
      case 2 => Ok("Février")
      case 3 => Ok("Mars")
      case 4 => Ok("Avril")
      case 5 => Ok("Mai")
      case 6 => Ok("Juin")
      case 7 => Ok("Juillet")
      case 8 => Ok("Août")
      case 9 => Ok("Septembre")
      case 10 => Ok("Octobre")
      case 11 => Ok("Novembre")
      case 12 => Ok("Décembre")
      case _ => Err(ArgumentOutOfRange))
    case _ => Err(Argument)
  }

  /** `ConvertBack`: a string is lower-cased and matched against the
      lower-case names; no match is out of range; a non-string is rejected. */
  function ConvertBack(value: Boxed): (r: Result<int>)
    ensures r.Ok? ==> value.BoxedString? && 1 <= r.value <= 12
    ensures value.BoxedString? && r.Err? ==> r.error == ArgumentOutOfRange
    ensures !value.BoxedString? ==> r == Err(Argument)
  {
    match value
    case BoxedString(month) => (
      match ToLower(month)
      case "janvier" => Ok(1)
      case "février" => Ok(2)
      case "mars" => Ok(3)
      case "avril" => Ok(4)
      case "mai" => Ok(5)
      case "juin" => Ok(6)
      case "juillet" => Ok(7)
      case "août" => Ok(8)
      case "septembre" => Ok(9)
      case "octobre" => Ok(10)
      case "novembre" => Ok(11)
      case "décembre" => Ok(12)
      case _ => Err(ArgumentOutOfRange))
    case _ => Err(Argument)
  }

  /** The converter's names are the calendar view-model's `_months`. */
  lemma ConvertAgreesWithMonthList(m: int)
    requires 1 <= m <= 12
    ensures Convert(BoxedInt(m)) == Ok(CalendarItemViewModels.Months[m - 1])
  {
  }

  /** The lower-case names `ConvertBack` matches, in month order. */
  const LowerMonthNames: seq<string> :=
    ["janvier", "février", "mars", "avril", "mai", "juin", "juillet",
     "août", "septembre", "octobre", "novembre", "décembre"]

  /** Each name `Convert` produces lower-cases to the matching entry. */
  lemma LowerOfMonthName(m: int)
    requires 1 <= m <= 12
    ensures Convert(BoxedInt(m)).Ok? && ToLower(Convert(BoxedInt(m)).value) == LowerMonthNames[m - 1]
  {
    if m <= 6 { LowerOfFirstHalfName(m); } else { LowerOfSecondHalfName(m); }
  }

  lemma LowerOfFirstHalfName(m: int)
    requires 1 <= m <= 6
    ensures Convert(BoxedInt(m)).Ok? && ToLower(Convert(BoxedInt(m)).value) == LowerMonthNames[m - 1]
  {
    if m == 1 { assert ToLower("Janvier") == "janvier"; }
    else if m == 2 { assert ToLower("Février") == "février"; }
    else if m == 3 { assert ToLower("Mars") == "mars"; }
    else if m == 4 { assert ToLower("Avril") == "avril"; }
    else if m == 5 { assert ToLower("Mai") == "mai"; }
    else { assert ToLower("Juin") == "juin"; }
  }

  lemma LowerOfSecondHalfName(m: int)
    requires 7 <= m <= 12
    ensures Convert(BoxedInt(m)).Ok? && ToLower(Convert(BoxedInt(m)).value) == LowerMonthNames[m - 1]
  {
    if m == 7 { assert ToLower("Juillet") == "juillet"; }
    else if m == 8 { assert ToLower("Août") == "août"; }
    else if m == 9 { assert ToLower("Septembre") == "septembre"; }
    else if m == 10 { assert ToLower("Octobre") == "octobre"; }
    else if m == 11 { assert ToLower("Novembre") == "novembre"; }
    else { assert ToLower("Décembre") == "décembre"; }
  }

  /** A string whose lower-case form is the m-th entry converts back to m. */
  lemma ConvertBackOfLowerName(s: string, m: int)
    requires 1 <= m <= 12 && ToLower(s) == LowerMonthNames[m - 1]
    ensures ConvertBack(BoxedString(s)) == Ok(m)
  {
  }

  /** Converting a month to its name and back gives the month. */
  lemma RoundTrip(m: int)
    requires 1 <= m <= 12
    ensures Convert(BoxedInt(m)).Ok? && ConvertBack(BoxedString(Convert(BoxedInt(m)).value)) == Ok(m)
  {
    LowerOfMonthName(m);
    ConvertBackOfLowerName(Convert(BoxedInt(m)).value, m);
  }

  /** Different months have different names. */
  lemma ConvertInjective(a: int, b: int)
    requires 1 <= a <= 12 && 1 <= b <= 12 && Convert(BoxedInt(a)) == Convert(BoxedInt(b))
    ensures a == b
  {
    RoundTrip(a);
    RoundTrip(b);
  }

  /** `ConvertBack` ignores case: a string and its lower-case form convert alike. */
  lemma ConvertBackIgnoresCase(s: string)
    ensures ConvertBack(BoxedString(s)) == ConvertBack(BoxedString(ToLower(s)))
  {
    ToLowerIdempotent(s);
  }

  /** Whatever `ConvertBack` accepts lower-cases to the name of the month it returns. */
  lemma ConvertBackFindsName(s: string, m: int)
    requires ConvertBack(BoxedString(s)) == Ok(m)
    ensures 1 <= m <= 12 && ToLower(s) == LowerMonthNames[m - 1]
  {
  }

  /** `ConvertBack` accepts exactly the strings that lower-case to the
      lower-cased name of a month, and returns that month. */
  lemma ConvertBackExactly(s: string, m: int)
    ensures ConvertBack(BoxedString(s)) == Ok(m)
            <==> 1 <= m <= 12 && ToLower(s) == ToLower(Convert(BoxedInt(m)).value)
  {
    if ConvertBack(BoxedString(s)) == Ok(m) {
      ConvertBackFindsName(s, m);
      LowerOfMonthName(m);
    }
    if 1 <= m <= 12 && ToLower(s) == ToLower(Convert(BoxedInt(m)).value) {
      LowerOfMonthName(m);
      ConvertBackOfLowerName(s, m);
    }
  }

  /** Upper case is accepted too: "FÉVRIER" converts back to 2. */
  lemma UpperCaseFebruary()
    ensures ConvertBack(BoxedString("FÉVRIER")) == Ok(2)
  {
    assert ToLower("FÉVRIER") == "février";
  }
}

/** `OperationToTextConverter` and `ExpenseToTextConverter`: the two classes
    have the same code, modelled once here. A recurring flag becomes
    "Recurrent" or "Unique"; the way back knows "recurrent" and "not recurrent". */
module RecurrenceTextConverter {
  import opened Common
  import opened Text

  /** `Convert`: a bool becomes its label; anything else throws. */
  function Convert(value: Boxed): (r: Result<string>)
    ensures r.Ok? <==> value.BoxedBool?
    ensures r.Err? ==> r.error == General
  {
    match value
    case BoxedBool(recurrent) => Ok(if recurrent then "Recurrent" else "Unique")
    case _ => Err(General)
  }

  /** `ConvertBack` as written: a non-null string is lower-cased and must be
      "recurrent" or "not recurrent"; anything else throws. */
  function ConvertBack(value: Boxed): (r: Result<bool>)
    ensures r.Ok? ==> value.BoxedString?
    ensures r.Err? ==> r.error == General
  {
    match value
    case BoxedString(text) => (
      match ToLower(text)
      case "recurrent" => Ok(true)
      case "not recurrent" => Ok(false)
      case _ => Err(General))
    case _ => Err(General)
  }

  /** The labels `Convert` produces are distinct. */
  lemma ConvertInjective(a: bool, b: bool)
    requires Convert(BoxedBool(a)) == Convert(BoxedBool(b))
    ensures a == b
  {
  }

  /** `ConvertBack` accepts a string exactly when it lower-cases to
      "recurrent" (true) or "not recurrent" (false). */
  lemma ConvertBackAccepts(s: string, b: bool)
    ensures ConvertBack(BoxedString(s)) == Ok(b)
            <==> ToLower(s) == (if b then "recurrent" else "not recurrent")
  {
  }

  /** The round trip holds for true: "Recurrent" comes back as true. */
  lemma RoundTripTrue()
    ensures Convert(BoxedBool(true)) == Ok("Recurrent")
    ensures ConvertBack(BoxedString(Convert(BoxedBool(true)).value)) == Ok(true)
  {
    assert ToLower("Recurrent") == "recurrent";
  }

  /** The round trip fails for false: "Unique" is not accepted back. */
  lemma RoundTripFailsForFalse()
    ensures Convert(BoxedBool(false)) == Ok("Unique")
    ensures ConvertBack(BoxedString(Convert(BoxedBool(false)).value)).Err?
  {
    assert ToLower("Unique") == "unique";
  }

  /** `ConvertBack` with the label `Convert` gives for false accepted as well. */
  function ConvertBackCorrected(value: Boxed): (r: Result<bool>)
    ensures r.Ok? ==> value.BoxedString?
    ensures r.Err? ==> r.error == General
  {
    match value
    case BoxedString(text) => (
      match ToLower(text)
      case "recurrent" => Ok(true)
      case "not recurrent" => Ok(false)
      case "unique" => Ok(false)
      case _ => Err(General))
    case _ => Err(General)
  }

  /** With the corrected way back, every flag survives the round trip, and
      every string the original accepted still converts the same way. */
  lemma CorrectedRoundTrip(b: bool, s: string)
    ensures ConvertBackCorrected(BoxedString(Convert(BoxedBool(b)).value)) == Ok(b)
    ensures ConvertBack(BoxedString(s)).Ok? ==> ConvertBackCorrected(BoxedString(s)) == ConvertBack(BoxedString(s))
  {
    assert ToLower("Recurrent") == "recurrent";
    assert ToLower("Unique") == "unique";
  }
}
