/** The month-scoped view of the stored expenses and its balance: which
    expenses the calendar page lists, how it totals them, and how a deletion
    by identifier acts on the store and on the list. */
module MonthlyExpenses {
  import opened Common
  import opened Gregorian
  import opened Text
  import opened Models
  import opened MonthCursor

  /** An expense dated in the displayed month and year (the recurring flag plays no part). */
  predicate InMonth(e: Expense, c: YearMonth) {
    e.date.month == c.month && e.date.year == c.year
  }

  /** The stored expenses that `LoadExpenses` keeps, in store order. */
  function MonthFilter(s: seq<Expense>, c: YearMonth): (r: seq<Expense>)
    ensures |r| <= |s|
    ensures forall k :: 0 <= k < |r| ==> InMonth(r[k], c)
  {
    if s == [] then []
    else MonthFilter(s[..|s| - 1], c) + (if InMonth(s[|s| - 1], c) then [s[|s| - 1]] else [])
  }

  /** The filtered list holds exactly the stored expenses of the month. */
  lemma {:induction false} MonthFilterMembers(s: seq<Expense>, c: YearMonth)
    ensures forall e :: e in MonthFilter(s, c) <==> e in s && InMonth(e, c)
  {
    if s != [] {
      MonthFilterMembers(s[..|s| - 1], c);
      assert s == s[..|s| - 1] + [s[|s| - 1]];
    }
  }

  /** Filtering distributes over concatenation of stores: the listed
      expenses keep the order they have in the store. */
  lemma {:induction false} MonthFilterConcat(a: seq<Expense>, b: seq<Expense>, c: YearMonth)
    ensures MonthFilter(a + b, c) == MonthFilter(a, c) + MonthFilter(b, c)
  {
    if b == [] {
      assert a + b == a;
    } else {
      var b', y := b[..|b| - 1], b[|b| - 1];
      MonthFilterConcat(a, b', c);
      var ab := a + b;
      assert ab[..|ab| - 1] == a + b' && ab[|ab| - 1] == y;
      var tail := if InMonth(y, c) then [y] else [];
      assert MonthFilter(ab, c) == MonthFilter(a + b', c) + tail;
      assert MonthFilter(b, c) == MonthFilter(b', c) + tail;
    }
  }

  /** The balance of a list: the sum of the negated amounts. */
  function NegSum(s: seq<Expense>): real {
    if s == [] then 0.0 else NegSum(s[..|s| - 1]) - s[|s| - 1].amount
  }

  /** The balance of two lists together is the sum of their balances. */
  lemma {:induction false} NegSumConcat(a: seq<Expense>, b: seq<Expense>)
    ensures NegSum(a + b) == NegSum(a) + NegSum(b)
  {
    if b == [] {
      assert a + b == a;
    } else {
      var b', y := b[..|b| - 1], b[|b| - 1];
      NegSumConcat(a, b');
      var ab := a + b;
      assert ab[..|ab| - 1] == a + b' && ab[|ab| - 1] == y;
      assert NegSum(ab) == NegSum(a + b') - y.amount;
    }
  }

  /** Removing one expense from a list raises its balance by that amount. */
  lemma {:induction false} NegSumRemoveAt(s: seq<Expense>, k: nat)
    requires k < |s|
    ensures NegSum(RemoveAt(s, k)) == NegSum(s) + s[k].amount
  {
    var pre, post := s[..k], s[k + 1..];
    assert s == (pre + [s[k]]) + post;
    NegSumConcat(pre + [s[k]], post);
    NegSumConcat(pre, post);
    assert (pre + [s[k]])[..k] == pre;
    assert NegSum(pre + [s[k]]) == NegSum(pre) - s[k].amount;
    assert RemoveAt(s, k) == pre + post;
  }

  /** When every listed amount is positive (as the add form ensures), the
      balance is never positive. */
  lemma {:induction false} NegSumOfPositiveAmounts(s: seq<Expense>)
    requires forall i :: 0 <= i < |s| ==> s[i].amount > 0.0
    ensures NegSum(s) <= 0.0
    ensures s != [] ==> NegSum(s) < 0.0
  {
    if s != [] {
      NegSumOfPositiveAmounts(s[..|s| - 1]);
    }
  }

  /** `Expenses.Sum(e => -e.ExpenseAmount)`. */
  method SumOfNegatedAmounts(s: seq<Expense>) returns (total: real)
    ensures total == NegSum(s)
  {
    total := 0.0;
    for i := 0 to |s|
      invariant total == NegSum(s[..i])
    {
      assert s[..i + 1][..i] == s[..i];
      total := total - s[i].amount;
    }
    assert s[..|s|] == s;
  }

  /** `k` is the position of the first element with identifier `id`. */
  predicate IsFirstWithId(s: seq<Expense>, id: int, k: nat) {
    k < |s| && s[k].id == id && forall j :: 0 <= j < k ==> s[j].id != id
  }

  /** `Expenses.FirstOrDefault(e => e.ExpenseId == id)`, as an index. */
  method FindFirstById(s: seq<Expense>, id: int) returns (k: Option<nat>)
    ensures k.Some? ==> IsFirstWithId(s, id, k.value)
    ensures k.None? ==> forall j :: 0 <= j < |s| ==> s[j].id != id
  {
    var i := 0;
    while i < |s|
      invariant 0 <= i <= |s|
      invariant forall j :: 0 <= j < i ==> s[j].id != id
    {
      if s[i].id == id {
        return Some(i);
      }
      i := i + 1;
    }
    k := None;
  }

  /** `Remove`: the list without the element at `k`. */
  function RemoveAt(s: seq<Expense>, k: nat): (r: seq<Expense>)
    requires k < |s|
    ensures |r| == |s| - 1
    ensures multiset(r) + multiset{s[k]} == multiset(s)
  {
    assert s == s[..k] + [s[k]] + s[k + 1..];
    s[..k] + s[k + 1..]
  }

  /** The store after `DELETE ... WHERE Id = id`. */
  function RemoveId(s: seq<Expense>, id: int): (r: seq<Expense>)
    ensures |r| <= |s|
    ensures forall k :: 0 <= k < |r| ==> r[k].id != id
  {
    if s == [] then []
    else RemoveId(s[..|s| - 1], id) + (if s[|s| - 1].id == id then [] else [s[|s| - 1]])
  }

  /** The deletion removes exactly the records with that identifier. */
  lemma {:induction false} RemoveIdMembers(s: seq<Expense>, id: int)
    ensures forall e :: e in RemoveId(s, id) <==> e in s && e.id != id
  {
    if s != [] {
      RemoveIdMembers(s[..|s| - 1], id);
      assert s == s[..|s| - 1] + [s[|s| - 1]];
    }
  }

  /** Deleting an identifier no record has leaves the store as it was. */
  lemma {:induction false} RemoveAbsentId(s: seq<Expense>, id: int)
    requires forall j :: 0 <= j < |s| ==> s[j].id != id
    ensures RemoveId(s, id) == s
  {
    if s != [] {
      RemoveAbsentId(s[..|s| - 1], id);
    }
  }

  /** Identifiers are unique in the store. */
  predicate UniqueIds(s: seq<Expense>) {
    forall i, j :: 0 <= i < j < |s| ==> s[i].id != s[j].id
  }

  /** With unique identifiers, deleting the identifier of the `k`-th listed
      expense from the store and listing again gives the old list without its
      `k`-th element: the store deletion and the in-place removal agree. */
  lemma {:induction false} MonthFilterAfterDelete(s: seq<Expense>, c: YearMonth, k: nat)
    requires UniqueIds(s)
    requires k < |MonthFilter(s, c)|
    ensures MonthFilter(RemoveId(s, MonthFilter(s, c)[k].id), c) == RemoveAt(MonthFilter(s, c), k)
  {
    var f := MonthFilter(s, c);
    var id := f[k].id;
    var init, x := s[..|s| - 1], s[|s| - 1];
    assert s == init + [x];
    var fi := MonthFilter(init, c);
    var tail := if InMonth(x, c) then [x] else [];
    assert f == fi + tail;
    assert UniqueIds(init) by {
      forall i, j | 0 <= i < j < |init| ensures init[i].id != init[j].id {
        assert init[i] == s[i] && init[j] == s[j];
      }
    }
    if x.id == id {
      assert forall j :: 0 <= j < |init| ==> init[j].id != id by {
        forall j | 0 <= j < |init| ensures init[j].id != id {
          assert s[j] == init[j];
        }
      }
      DeleteLastOfStore(init, x, c, k);
    } else {
      assert k < |fi| by {
        if tail != [] {
          assert f[|fi|] == x;
        }
      }
      assert fi[k] == f[k];
      MonthFilterAfterDelete(init, c, k);
      DeleteEarlierOfStore(init, x, c, k);
    }
  }

  /** `MonthFilterAfterDelete` when the record deleted is the last one stored. */
  lemma DeleteLastOfStore(init: seq<Expense>, x: Expense, c: YearMonth, k: nat)
    requires forall j :: 0 <= j < |init| ==> init[j].id != x.id
    requires k < |MonthFilter(init + [x], c)| && MonthFilter(init + [x], c)[k].id == x.id
    ensures MonthFilter(RemoveId(init + [x], x.id), c) == RemoveAt(MonthFilter(init + [x], c), k)
  {
    var s := init + [x];
    assert s[..|s| - 1] == init;
    var f, fi := MonthFilter(s, c), MonthFilter(init, c);
    RemoveAbsentId(init, x.id);
    assert RemoveId(s, x.id) == init;
    MonthFilterMembers(init, c);
    assert forall i :: 0 <= i < |fi| ==> fi[i] in fi && fi[i].id != x.id;
    if InMonth(x, c) {
      assert f == fi + [x];
      assert forall i :: 0 <= i < |fi| ==> f[i] == fi[i];
      assert k == |fi|;
      assert RemoveAt(f, k) == fi;
    } else {
      assert false;
    }
  }

  /** `MonthFilterAfterDelete` when the record deleted is not the last one stored. */
  lemma DeleteEarlierOfStore(init: seq<Expense>, x: Expense, c: YearMonth, k: nat)
    requires k < |MonthFilter(init, c)| && MonthFilter(init, c)[k].id != x.id
    requires MonthFilter(RemoveId(init, MonthFilter(init, c)[k].id), c) == RemoveAt(MonthFilter(init, c), k)
    ensures MonthFilter(init + [x], c)[k] == MonthFilter(init, c)[k]
    ensures var id := MonthFilter(init, c)[k].id;
      MonthFilter(RemoveId(init + [x], id), c) == RemoveAt(MonthFilter(init + [x], c), k)
  {
    var s := init + [x];
    assert s[..|s| - 1] == init && s[|s| - 1] == x;
    var fi := MonthFilter(init, c);
    var id := fi[k].id;
    MonthFilterConcat(init, [x], c);
    var ri := RemoveId(init, id);
    assert RemoveId(s, id) == ri + [x];
    MonthFilterConcat(ri, [x], c);
    RemoveAtAppend(fi, MonthFilter([x], c), k);
  }

  /** Removing a position of the front part of a concatenation. */
  lemma RemoveAtAppend(a: seq<Expense>, b: seq<Expense>, k: nat)
    requires k < |a|
    ensures RemoveAt(a + b, k) == RemoveAt(a, k) + b
  {
    assert (a + b)[..k] == a[..k];
    assert (a + b)[k + 1..] == a[k + 1..] + b;
  }

  /** The scenario of a January expense and a recurring January expense: the
      March list holds neither, since only the date is compared. */
  lemma RecurringExpensesStayInTheirMonth()
    ensures
      var jan12 := DateTime(2025, 1, 12, 0);
      var a := Expense(1, Some("A"), 10.0, jan12, Some("Autre"), false);
      var b := Expense(2, Some("B"), 10.0, jan12, Some("Autre"), true);
      MonthFilter([a, b], YearMonth(2025, 3)) == [] && MonthFilter([a, b], YearMonth(2025, 1)) == [a, b]
  {
    var jan12 := DateTime(2025, 1, 12, 0);
    var a := Expense(1, Some("A"), 10.0, jan12, Some("Autre"), false);
    var b := Expense(2, Some("B"), 10.0, jan12, Some("Autre"), true);
    var s := [a, b];
    assert s[..1] == [a] && [a][..0] == [];
    assert MonthFilter([a], YearMonth(2025, 3)) == [];
    assert MonthFilter([a], YearMonth(2025, 1)) == [a];
  }

  /** The check `OnExpenseAdded` makes before storing an expense: title and
      category not null or empty, a positive amount and a date set. */
  predicate IsComplete(e: Expense) {
    !IsNullOrEmpty(e.title) && e.amount > 0.0 && e.date != DefaultDateTime && !IsNullOrEmpty(e.category)
  }
}
