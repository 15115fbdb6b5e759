/**
 * The state of the budgeting page and the handlers that change it: the ledger,
 * the entry form, the filter criteria and the edit cursor.
 */
module Budget {
  import opened Ledger
  import opened View

  datatype Option<T> = None | Some(value: T)

  /** The amount input: empty, or holding a number. */
  datatype AmountField = Blank | Entered(value: real)

  /** One filter input event: which criterion the input names and its new value. */
  datatype FilterChange =
    | SetKind(kind: KindFilter)
    | SetCategory(category: CategoryFilter)
    | SetStartDate(startDate: string)
    | SetEndDate(endDate: string)

  class Page {
    var transactions: seq<Transaction>
    // the entry form
    var date: string
    var amount: AmountField
    var kind: Kind
    var category: Category
    // the criteria of the view
    var filter: Criteria
    // the ledger position the form is editing, if any
    var editIndex: Option<nat>

    /** The form shows its default values: no date, no amount, income, salary. */
    predicate FormIsDefault()
      reads this
    {
      date == "" && amount == Blank && kind == Income && category == Salary
    }

    /** The record the form would submit. */
    function Pending(): Transaction
      reads this
      requires amount.Entered?
    {
      Transaction(date, amount.value, kind, category)
    }

    /** The rows of the table. */
    function Displayed(): seq<Transaction>
      reads this
    {
      Filtered(transactions, filter)
    }

    /** The page as first rendered: an empty ledger, a default form, unset criteria, not editing. */
    constructor ()
      ensures transactions == [] && FormIsDefault() && filter == Unset && editIndex == None
    {
      transactions := [];
      date, amount, kind, category := "", Blank, Income, Salary;
      filter := Unset;
      editIndex := None;
    }

    /** Submitting the form. When not editing, the record is appended. When editing,
        it is written at the edit cursor: over the record there, or past the last
        record when deletions have shrunk the ledger to the cursor. Either way the
        cursor is cleared and the form goes back to its defaults. */
    method Submit()
      requires amount.Entered?
      requires editIndex.Some? ==> editIndex.value <= |transactions|
      modifies this
      ensures editIndex == None && FormIsDefault() && filter == old(filter)
      ensures old(editIndex).None? ==> transactions == old(transactions) + [old(Pending())]
      ensures old(editIndex).Some? && old(editIndex.value) < old(|transactions|) ==>
                && |transactions| == old(|transactions|)
                && transactions[old(editIndex.value)] == old(Pending())
                && forall k :: 0 <= k < |transactions| && k != old(editIndex.value) ==>
                     transactions[k] == old(transactions[k])
      ensures old(editIndex) == Some(old(|transactions|)) ==> transactions == old(transactions) + [old(Pending())]
    {
      var record := Transaction(date, amount.value, kind, category);
      if editIndex.Some? {
        var i := editIndex.value;
        if i < |transactions| {
          transactions := transactions[i := record];
        } else {
          // an assignment at index `length` extends the array by one
          transactions := transactions + [record];
        }
        editIndex := None;
      } else {
        transactions := transactions + [record];
      }
      date, amount, kind, category := "", Blank, Income, Salary;
    }

    /** Loading the record at ledger position `i` into the form and setting the cursor. */
    method Edit(i: nat)
      requires i < |transactions|
      modifies this
      ensures transactions == old(transactions) && filter == old(filter)
      ensures editIndex == Some(i)
      ensures amount.Entered? && Pending() == transactions[i]
    {
      var t := transactions[i];
      date, amount, kind, category := t.date, Entered(t.amount), t.kind, t.category;
      editIndex := Some(i);
    }

    /** Removing the record at ledger position `i`; later records move down by one.
        The form and the edit cursor are left as they are. */
    method Delete(i: nat)
      requires i < |transactions|
      modifies this
      ensures |transactions| == old(|transactions|) - 1
      ensures forall k :: 0 <= k < i ==> transactions[k] == old(transactions[k])
      ensures forall k :: i <= k < |transactions| ==> transactions[k] == old(transactions[k + 1])
      ensures multiset(transactions) + multiset{old(transactions[i])} == old(multiset(transactions))
      ensures date == old(date) && amount == old(amount) && kind == old(kind) && category == old(category)
      ensures filter == old(filter) && editIndex == old(editIndex)
    {
      ghost var before := transactions;
      transactions := transactions[..i] + transactions[i + 1..];
      assert before == before[..i] + [before[i]] + before[i + 1..];
    }

    /** Changing one criterion; the other three keep their values. */
    method SetFilter(change: FilterChange)
      modifies this
      ensures filter == match change
        case SetKind(k) => old(filter).(kind := k)
        case SetCategory(g) => old(filter).(category := g)
        case SetStartDate(d) => old(filter).(startDate := d)
        case SetEndDate(d) => old(filter).(endDate := d)
      ensures transactions == old(transactions) && editIndex == old(editIndex)
      ensures date == old(date) && amount == old(amount) && kind == old(kind) && category == old(category)
    {
      match change
      case SetKind(k) => filter := filter.(kind := k);
      case SetCategory(g) => filter := filter.(category := g);
      case SetStartDate(d) => filter := filter.(startDate := d);
      case SetEndDate(d) => filter := filter.(endDate := d);
    }

    /** The reset button: every criterion unset, so every record is displayed again. */
    method ResetFilter()
      modifies this
      ensures filter == Unset && Displayed() == transactions
      ensures transactions == old(transactions) && editIndex == old(editIndex)
      ensures date == old(date) && amount == old(amount) && kind == old(kind) && category == old(category)
    {
      filter := Unset;
      FilteredUnset(transactions);
    }
  }

  /** Edit on position `i`, then submitting the untouched form, writes the same record
      back: the ledger is unchanged and the form is at its defaults again. */
  method EditThenSubmit(p: Page, i: nat)
    requires i < |p.transactions|
    modifies p
    ensures p.transactions == old(p.transactions)
    ensures p.editIndex == None && p.FormIsDefault() && p.filter == old(p.filter)
  {
    p.Edit(i);
    p.Submit();
    assert p.transactions == old(p.transactions);
  }

  /** Adding a record and then deleting the last position restores the ledger. */
  method AddThenDelete(p: Page)
    requires p.editIndex == None && p.amount.Entered?
    modifies p
    ensures p.transactions == old(p.transactions)
  {
    p.Submit();
    p.Delete(|p.transactions| - 1);
    assert p.transactions == old(p.transactions);
  }

  /** The cursor is a position, not a record: deleting the first row while record `i`
      is being edited leaves that record untouched (now at `i - 1`) and writes the form
      over the record that followed it, which is lost. */
  method DeleteBeforeEditedRow(p: Page, i: nat)
    requires 0 < i && i + 1 < |p.transactions|
    modifies p
    ensures |p.transactions| == |old(p.transactions)| - 1
    ensures p.transactions[i - 1] == old(p.transactions[i])
    ensures p.transactions[i] == old(p.transactions[i])
    ensures forall k :: i < k < |p.transactions| ==> p.transactions[k] == old(p.transactions[k + 1])
    ensures p.transactions == old(p.transactions)[1..][i := old(p.transactions[i])]
    ensures p.editIndex == None && p.FormIsDefault() && p.filter == old(p.filter)
  {
    p.Edit(i);
    p.Delete(0);
    p.Submit();
  }

  /** Deleting the last row while it is being edited leaves the cursor at the new length;
      submitting then appends the form, so the deleted record comes back. */
  method DeleteEditedLastRow(p: Page)
    requires |p.transactions| > 0
    modifies p
    ensures p.transactions == old(p.transactions)
    ensures p.editIndex == None
  {
    var n := |p.transactions| - 1;
    p.Edit(n);
    p.Delete(n);
    p.Submit();
    assert p.transactions == old(p.transactions);
  }

  /** Editing a record into a category the criteria exclude: the record stays in the
      ledger but is no longer displayed. */
  method RecategoriseOutOfView(p: Page, i: nat, g: Category)
    requires i < |p.transactions|
    requires p.filter.category.OnlyCategory? && p.filter.category.category != g
    modifies p
    ensures |p.transactions| == |old(p.transactions)|
    ensures p.transactions[i] == old(p.transactions[i]).(category := g)
    ensures p.transactions[i] !in p.Displayed()
  {
    p.Edit(i);
    p.category := g;
    p.Submit();
  }
}
