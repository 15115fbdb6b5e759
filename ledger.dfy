/**
 * The records of the budgeting page: a transaction of the ledger and the
 * filter criteria of the view.
 */
module Ledger {

  /** The direction of a transaction, the `type` select of the form. */
  datatype Kind = Income | Expense

  /** The fixed set of categories of the `category` select. */
  datatype Category = Salary | Groceries | Bills | Other

  /** One ledger record `{date, amount, type, category}`. The date is the
      `YYYY-MM-DD` text of the date input; the amount is the parsed number,
      exact here. */
  datatype Transaction = Transaction(date: string, amount: real, kind: Kind, category: Category)

  /** The type criterion: `"all"` or one kind. */
  datatype KindFilter = AnyKind | OnlyKind(kind: Kind)

  /** The category criterion: `"all"` or one category. */
  datatype CategoryFilter = AnyCategory | OnlyCategory(category: Category)

  /** The filter criteria; an empty date bound is no bound. */
  datatype Criteria = Criteria(kind: KindFilter, category: CategoryFilter, startDate: string, endDate: string)

  /** The criteria the page starts with and the reset button restores. */
  const Unset := Criteria(AnyKind, AnyCategory, "", "")
}
