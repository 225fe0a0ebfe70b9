/** The expense table behind the calendar page, seen as a sequence of
    records with identifiers the table assigns (AUTOINCREMENT). */
module ExpenseStores {
  import opened Models
  import opened MonthlyExpenses

  /** Deleting by identifier keeps the identifiers unique. */
  lemma {:induction false} RemoveIdKeepsUniqueIds(s: seq<Expense>, id: int)
    requires UniqueIds(s)
    ensures UniqueIds(RemoveId(s, id))
  {
    if s != [] {
      var init, x := s[..|s| - 1], s[|s| - 1];
      assert UniqueIds(init) by {
        forall i, j | 0 <= i < j < |init| ensures init[i].id != init[j].id {
          assert init[i] == s[i] && init[j] == s[j];
        }
      }
      RemoveIdKeepsUniqueIds(init, id);
      RemoveIdMembers(init, id);
      var r := RemoveId(init, id);
      assert forall e :: e in r ==> e in init && e.id != x.id by {
        forall e | e in r ensures e in init && e.id != x.id {
          var j :| 0 <= j < |init| && init[j] == e;
          assert s[j] == e;
        }
      }
      assert forall i :: 0 <= i < |r| ==> r[i] in r;
    }
  }

  class ExpenseStore {
    var records: seq<Expense>
    var nextId: int

    /** Identifiers are unique and below the next one to be assigned. */
    predicate Valid()
      reads this
    {
      UniqueIds(records) && forall i :: 0 <= i < |records| ==> records[i].id < nextId
    }

    constructor ()
      ensures Valid() && records == [] && nextId == 1
    {
      records, nextId := [], 1;
    }

    /** `AddExpenseAsync`: the INSERT stores every field but the identifier,
        which the table assigns. */
    method Add(e: Expense)
      requires Valid()
      modifies this
      ensures Valid()
      ensures records == old(records) + [e.(id := old(nextId))]
      ensures nextId == old(nextId) + 1
    {
      records := records + [e.(id := nextId)];
      nextId := nextId + 1;
    }

    /** `DeleteExpenseByIdAsync`: DELETE every record with that identifier. */
    method DeleteById(id: int)
      requires Valid()
      modifies this
      ensures Valid()
      ensures records == RemoveId(old(records), id)
      ensures nextId == old(nextId)
    {
      RemoveIdKeepsUniqueIds(records, id);
      RemoveIdMembers(records, id);
      var r := RemoveId(records, id);
      assert forall i :: 0 <= i < |r| ==> r[i] in r;
      records := r;
    }
  }
}
