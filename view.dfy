/**
 * The view of the ledger: the transactions the criteria keep, in ledger
 * order, and the income, expense and balance totals over them. Everything
 * here is a pure function of the ledger and the criteria.
 */
module View {
  import opened Ledger
  import opened Dates

  /** The conjunction of the four conditions of the filter. */
  predicate Matches(c: Criteria, t: Transaction)
  {
    && (c.kind == AnyKind || c.kind == OnlyKind(t.kind))
    && (c.category == AnyCategory || c.category == OnlyCategory(t.category))
    && (c.startDate == "" || AtMost(c.startDate, t.date))
    && (c.endDate == "" || AtMost(t.date, c.endDate))
  }

  /** The records of `ledger` that match `c`, in ledger order. */
  function Filtered(ledger: seq<Transaction>, c: Criteria): (r: seq<Transaction>)
    ensures |r| <= |ledger|
    ensures forall k :: 0 <= k < |r| ==> Matches(c, r[k])
  {
    if ledger == [] then []
    else
      var n := |ledger| - 1;
      Filtered(ledger[..n], c) + (if Matches(c, ledger[n]) then [ledger[n]] else [])
  }

  /** The ledger positions of the displayed rows: row `k` of the view is the record
      at raw position `r[k]`, and the positions strictly increase, so the view is an
      order-preserving subsequence of the ledger. */
  function Positions(ledger: seq<Transaction>, c: Criteria): (r: seq<nat>)
    ensures |r| == |Filtered(ledger, c)|
    ensures forall k :: 0 <= k < |r| ==> r[k] < |ledger| && Filtered(ledger, c)[k] == ledger[r[k]]
    ensures forall i, j :: 0 <= i < j < |r| ==> r[i] < r[j]
  {
    if ledger == [] then []
    else
      var n := |ledger| - 1;
      assert Filtered(ledger, c) == Filtered(ledger[..n], c) + (if Matches(c, ledger[n]) then [ledger[n]] else []);
      Positions(ledger[..n], c) + (if Matches(c, ledger[n]) then [n] else [])
  }

  /** The displayed positions are exactly the positions whose record matches. */
  lemma {:induction false} PositionsAreMatches(ledger: seq<Transaction>, c: Criteria)
    ensures forall j :: 0 <= j < |ledger| ==> (j in Positions(ledger, c) <==> Matches(c, ledger[j]))
  {
    if ledger != [] {
      var n := |ledger| - 1;
      PositionsAreMatches(ledger[..n], c);
      forall j | 0 <= j < n ensures ledger[..n][j] == ledger[j] { }
    }
  }

  /** Each record occurs in the view as often as in the ledger when it matches,
      and not at all otherwise. */
  lemma {:induction false} FilteredCount(ledger: seq<Transaction>, c: Criteria, t: Transaction)
    ensures multiset(Filtered(ledger, c))[t] == if Matches(c, t) then multiset(ledger)[t] else 0
  {
    if ledger != [] {
      var n := |ledger| - 1;
      FilteredCount(ledger[..n], c, t);
      assert ledger == ledger[..n] + [ledger[n]];
    }
  }

  /** A record is displayed iff it is in the ledger and matches the criteria. */
  lemma {:induction false} FilteredMembership(ledger: seq<Transaction>, c: Criteria, t: Transaction)
    ensures t in Filtered(ledger, c) <==> t in ledger && Matches(c, t)
  {
    FilteredCount(ledger, c, t);
    assert t in Filtered(ledger, c) <==> t in multiset(Filtered(ledger, c));
    assert t in ledger <==> t in multiset(ledger);
  }

  /** Filtering distributes over concatenation of ledgers. */
  lemma {:induction false} FilteredAppend(a: seq<Transaction>, b: seq<Transaction>, c: Criteria)
    ensures Filtered(a + b, c) == Filtered(a, c) + Filtered(b, c)
    decreases |b|
  {
    if b != [] {
      var n := |b| - 1;
      FilteredAppend(a, b[..n], c);
      assert (a + b)[..|a + b| - 1] == a + b[..n];
    } else {
      assert a + b == a;
    }
  }

  /** The view is the whole ledger iff every record matches the criteria. */
  lemma {:induction false} FilteredIsLedgerIff(ledger: seq<Transaction>, c: Criteria)
    ensures Filtered(ledger, c) == ledger <==> forall k :: 0 <= k < |ledger| ==> Matches(c, ledger[k])
  {
    if ledger != [] {
      var n := |ledger| - 1;
      FilteredIsLedgerIff(ledger[..n], c);
      assert ledger == ledger[..n] + [ledger[n]];
      assert (forall k :: 0 <= k < |ledger| ==> Matches(c, ledger[k])) ==>
             (forall k :: 0 <= k < n ==> Matches(c, ledger[..n][k]));
    }
  }

  /** With the initial or reset criteria the view is the whole ledger. */
  lemma {:induction false} FilteredUnset(ledger: seq<Transaction>)
    ensures Filtered(ledger, Unset) == ledger
  {
    FilteredIsLedgerIff(ledger, Unset);
  }

  /** Filtering the view again changes nothing. */
  lemma FilteredIdempotent(ledger: seq<Transaction>, c: Criteria)
    ensures Filtered(Filtered(ledger, c), c) == Filtered(ledger, c)
  {
    FilteredIsLedgerIff(Filtered(ledger, c), c);
  }

  /** Set date bounds that are out of order (end before start) hide every record. */
  lemma EmptyDateRange(ledger: seq<Transaction>, c: Criteria)
    requires c.startDate != "" && c.endDate != "" && !AtMost(c.startDate, c.endDate)
    ensures Filtered(ledger, c) == []
  {
    forall k | 0 <= k < |ledger| ensures !Matches(c, ledger[k]) {
      AtMostTransitive(c.startDate, ledger[k].date, c.endDate);
    }
    forall t | t in Filtered(ledger, c) ensures t in ledger && Matches(c, t) {
      FilteredMembership(ledger, c, t);
    }
  }

  lemma {:induction false} IncreasingAtLeastIndex(r: seq<nat>, i: nat)
    requires forall a, b :: 0 <= a < b < |r| ==> r[a] < r[b]
    requires i < |r|
    ensures i <= r[i]
  {
    if i > 0 {
      IncreasingAtLeastIndex(r, i - 1);
    }
  }

  /** The Edit and Delete buttons of displayed row `i` pass `i` itself as the ledger
      position. That position exists, but the record shown in row `i` sits at raw
      position `Positions(ledger, c)[i]`, which is `i` or later. */
  lemma {:induction false} DisplayedRowPosition(ledger: seq<Transaction>, c: Criteria, i: nat)
    requires i < |Filtered(ledger, c)|
    ensures i < |ledger|
    ensures i <= Positions(ledger, c)[i] < |ledger|
    ensures Filtered(ledger, c)[i] == ledger[Positions(ledger, c)[i]]
  {
    IncreasingAtLeastIndex(Positions(ledger, c), i);
  }

  /** The matching positions form a prefix of the ledger: below a matching record,
      every record matches. */
  ghost predicate MatchesFormPrefix(ledger: seq<Transaction>, c: Criteria)
  {
    forall j, k :: 0 <= k < j < |ledger| && Matches(c, ledger[j]) ==> Matches(c, ledger[k])
  }

  /** Every displayed row `i` sits at ledger position `i`. */
  ghost predicate RowsAtOwnPosition(ledger: seq<Transaction>, c: Criteria)
  {
    forall i :: 0 <= i < |Positions(ledger, c)| ==> Positions(ledger, c)[i] == i
  }

  /** If every displayed row sits at its own ledger position, the matching positions
      form a prefix. */
  lemma RowsAtOwnPositionPrefix(ledger: seq<Transaction>, c: Criteria)
    requires RowsAtOwnPosition(ledger, c)
    ensures MatchesFormPrefix(ledger, c)
  {
    var r := Positions(ledger, c);
    PositionsAreMatches(ledger, c);
    forall j, k | 0 <= k < j < |ledger| && Matches(c, ledger[j]) ensures Matches(c, ledger[k]) {
      assert j in r;
      var i :| 0 <= i < |r| && r[i] == j;
      assert r[k] == k;
    }
  }

  /** If the matching positions form a prefix, every displayed row sits at its own
      ledger position. */
  lemma {:induction false} PrefixRowsAtOwnPosition(ledger: seq<Transaction>, c: Criteria)
    requires MatchesFormPrefix(ledger, c)
    ensures RowsAtOwnPosition(ledger, c)
  {
    if ledger != [] {
      var n := |ledger| - 1;
      var prefix := ledger[..n];
      assert MatchesFormPrefix(prefix, c) by {
        forall j, k | 0 <= k < j < n && Matches(c, prefix[j]) ensures Matches(c, prefix[k]) {
          assert prefix[j] == ledger[j] && prefix[k] == ledger[k];
        }
      }
      PrefixRowsAtOwnPosition(prefix, c);
      var r' := Positions(prefix, c);
      if Matches(c, ledger[n]) && n > 0 {
        PositionsAreMatches(prefix, c);
        assert Matches(c, prefix[n - 1]);
        assert n - 1 in r';
        assert |r'| == n;
      }
    }
  }

  /** Every displayed row `i` sits at ledger position `i`, so that its Edit and Delete
      buttons address the record it shows, iff the matching positions form a prefix
      of the ledger. */
  lemma RowsAtOwnPositionIff(ledger: seq<Transaction>, c: Criteria)
    ensures RowsAtOwnPosition(ledger, c) <==> MatchesFormPrefix(ledger, c)
  {
    if RowsAtOwnPosition(ledger, c) {
      RowsAtOwnPositionPrefix(ledger, c);
    }
    if MatchesFormPrefix(ledger, c) {
      PrefixRowsAtOwnPosition(ledger, c);
    }
  }

  /** The transactions of one kind, in order (the inner `filter` of each total). It is
      the view under criteria that constrain the type alone, so `Positions`,
      `PositionsAreMatches` and `FilteredCount` describe it too. */
  function OfKind(s: seq<Transaction>, kind: Kind): (r: seq<Transaction>)
    ensures |r| <= |s|
    ensures forall k :: 0 <= k < |r| ==> r[k].kind == kind && r[k] in s
    ensures r == Filtered(s, Criteria(OnlyKind(kind), AnyCategory, "", ""))
  {
    if s == [] then []
    else
      var n := |s| - 1;
      OfKind(s[..n], kind) + (if s[n].kind == kind then [s[n]] else [])
  }

  /** The sum of the amounts, folded from the left starting at 0 as `reduce` does. */
  function Sum(s: seq<Transaction>): real
  {
    if s == [] then 0.0 else Sum(s[..|s| - 1]) + s[|s| - 1].amount
  }

  /** The total of one kind over the view. */
  function Total(ledger: seq<Transaction>, c: Criteria, kind: Kind): real
  {
    Sum(OfKind(Filtered(ledger, c), kind))
  }

  function TotalIncome(ledger: seq<Transaction>, c: Criteria): real
  {
    Total(ledger, c, Income)
  }

  function TotalExpense(ledger: seq<Transaction>, c: Criteria): real
  {
    Total(ledger, c, Expense)
  }

  function Balance(ledger: seq<Transaction>, c: Criteria): real
  {
    TotalIncome(ledger, c) - TotalExpense(ledger, c)
  }

  /** An amount with the sign of its direction: income adds to the balance, expense subtracts. */
  function SignedAmount(t: Transaction): real
  {
    if t.kind == Income then t.amount else -t.amount
  }

  /** Reference definition of a balance: the sum of the signed amounts. */
  function SignedSum(s: seq<Transaction>): real
  {
    if s == [] then 0.0 else SignedSum(s[..|s| - 1]) + SignedAmount(s[|s| - 1])
  }

  lemma {:induction false} SumAppend(a: seq<Transaction>, b: seq<Transaction>)
    ensures Sum(a + b) == Sum(a) + Sum(b)
    decreases |b|
  {
    if b != [] {
      var n := |b| - 1;
      SumAppend(a, b[..n]);
      assert (a + b)[..|a + b| - 1] == a + b[..n];
    } else {
      assert a + b == a;
    }
  }

  /** Split by direction, the two sums add up to the sum of all amounts. */
  lemma {:induction false} SumByKind(s: seq<Transaction>)
    ensures Sum(OfKind(s, Income)) + Sum(OfKind(s, Expense)) == Sum(s)
  {
    if s != [] {
      var n := |s| - 1;
      SumByKind(s[..n]);
      SumAppend(OfKind(s[..n], Income), if s[n].kind == Income then [s[n]] else []);
      SumAppend(OfKind(s[..n], Expense), if s[n].kind == Expense then [s[n]] else []);
    }
  }

  /** Split by direction, income minus expense is the signed sum. */
  lemma {:induction false} SignedSumByKind(s: seq<Transaction>)
    ensures Sum(OfKind(s, Income)) - Sum(OfKind(s, Expense)) == SignedSum(s)
  {
    if s != [] {
      var n := |s| - 1;
      SignedSumByKind(s[..n]);
      SumAppend(OfKind(s[..n], Income), if s[n].kind == Income then [s[n]] else []);
      SumAppend(OfKind(s[..n], Expense), if s[n].kind == Expense then [s[n]] else []);
    }
  }

  /** Income and expense together account for every amount in the view. */
  lemma TotalsCoverView(ledger: seq<Transaction>, c: Criteria)
    ensures TotalIncome(ledger, c) + TotalExpense(ledger, c) == Sum(Filtered(ledger, c))
  {
    SumByKind(Filtered(ledger, c));
  }

  /** The balance is the signed sum of the displayed amounts. */
  lemma BalanceIsSignedSum(ledger: seq<Transaction>, c: Criteria)
    ensures Balance(ledger, c) == SignedSum(Filtered(ledger, c))
  {
    SignedSumByKind(Filtered(ledger, c));
  }

  lemma {:induction false} OfKindNone(s: seq<Transaction>, kind: Kind)
    requires forall k :: 0 <= k < |s| ==> s[k].kind != kind
    ensures OfKind(s, kind) == []
  {
    if s != [] {
      OfKindNone(s[..|s| - 1], kind);
    }
  }

  lemma OfKindAll(s: seq<Transaction>, kind: Kind)
    requires forall k :: 0 <= k < |s| ==> s[k].kind == kind
    ensures OfKind(s, kind) == s
  {
    FilteredIsLedgerIff(s, Criteria(OnlyKind(kind), AnyCategory, "", ""));
  }

  /** When the type criterion selects one kind, the total of the other kind is 0
      and the total of the selected kind is the sum over the whole view. */
  lemma TotalsUnderKindFilter(ledger: seq<Transaction>, c: Criteria, shown: Kind, hidden: Kind)
    requires c.kind == OnlyKind(shown) && hidden != shown
    ensures Total(ledger, c, hidden) == 0.0
    ensures Total(ledger, c, shown) == Sum(Filtered(ledger, c))
  {
    OfKindNone(Filtered(ledger, c), hidden);
    OfKindAll(Filtered(ledger, c), shown);
  }

  lemma {:induction false} SumNonNegative(s: seq<Transaction>)
    requires forall k :: 0 <= k < |s| ==> s[k].amount >= 0.0
    ensures Sum(s) >= 0.0
  {
    if s != [] {
      SumNonNegative(s[..|s| - 1]);
    }
  }

  /** With non-negative amounts in the ledger, both totals are non-negative. */
  lemma TotalNonNegative(ledger: seq<Transaction>, c: Criteria, kind: Kind)
    requires forall k :: 0 <= k < |ledger| ==> ledger[k].amount >= 0.0
    ensures Total(ledger, c, kind) >= 0.0
  {
    var f := Filtered(ledger, c);
    forall t | t in f ensures t in ledger {
      FilteredMembership(ledger, c, t);
    }
    SumNonNegative(OfKind(f, kind));
  }

  /** The worked example: an income and an expense, filtered to expenses. The single
      displayed row is the expense, while raw position 0, which its Edit and Delete
      buttons address, holds the income. */
  lemma ExpenseFilterExample()
    ensures var salary := Transaction("2024-01-01", 1000.0, Income, Salary);
            var groceries := Transaction("2024-01-05", 200.0, Expense, Groceries);
            var ledger := [salary, groceries];
            var c := Criteria(OnlyKind(Expense), AnyCategory, "", "");
            && Filtered(ledger, c) == [groceries]
            && TotalIncome(ledger, c) == 0.0
            && TotalExpense(ledger, c) == 200.0
            && Balance(ledger, c) == -200.0
            && Filtered(ledger, c)[0] != ledger[0]
  {
    var salary := Transaction("2024-01-01", 1000.0, Income, Salary);
    var groceries := Transaction("2024-01-05", 200.0, Expense, Groceries);
    var ledger := [salary, groceries];
    var c := Criteria(OnlyKind(Expense), AnyCategory, "", "");
    assert ledger[..1] == [salary];
    assert Filtered(ledger, c) == [groceries];
    OfKindNone([groceries], Income);
    OfKindAll([groceries], Expense);
    assert Sum([groceries]) == 200.0 by {
      assert [groceries][..0] == [];
    }
  }
}
