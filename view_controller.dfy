/** The ledger state the wallet screen's controller keeps in its fields, and the handlers that
    change it: loading, switching the segment, adding an entry, deleting a row, clearing all. */
module Wallet {
  import opened Ledger
  import opened Projection

  class ViewController {
    var balance: real
    /** Every entry, newest first. */
    var transactions: seq<Transaction>
    /** The rows the table shows. */
    var filteredTransactions: seq<Transaction>
    /** The segmented control's selected index (0 all, 1 income, 2 expense). */
    var selectedSegmentIndex: int
    var selectedCategory: Option<string>
    var isIncome: bool

    const incomeCategories: seq<string> := ["Maaş", "Prim", "Hediye", "Diğer"]
    const expenseCategories: seq<string> := ["Market", "Kira", "Eğlence", "Ulaşım", "Diğer"]

    /** The balance is the signed sum of the ledger and the table shows the selected segment's
        view of the ledger. */
    predicate Consistent()
      reads this
    {
      balance == SignedSum(transactions) && filteredTransactions == Filter(transactions, selectedSegmentIndex)
    }

    /** The controller as created, before the view loads; `segment` is the control's initial index. */
    constructor (segment: int)
      ensures transactions == [] && filteredTransactions == [] && balance == 0.0
      ensures selectedSegmentIndex == segment && selectedCategory == None && isIncome
      ensures Consistent()
    {
      balance := 0.0;
      transactions := [];
      filteredTransactions := [];
      selectedSegmentIndex := segment;
      selectedCategory := None;
      isIncome := true;
    }

    /** `viewDidLoad`: load the stored ledger (`loaded` is None when reading or decoding the
        file fails, which keeps the ledger in memory), then recompute balance and view. */
    method ViewDidLoad(loaded: Option<seq<Transaction>>)
      modifies this`transactions, this`balance, this`filteredTransactions
      ensures transactions == if loaded.Some? then loaded.value else old(transactions)
      ensures Consistent()
    {
      if loaded.Some? {
        transactions := loaded.value;
      }
      UpdateBalance();
      FilterTransactions();
    }

    /** `segmentChanged`, after the control has moved to `index`. */
    method SegmentChanged(index: int)
      modifies this`selectedSegmentIndex, this`filteredTransactions
      ensures selectedSegmentIndex == index
      ensures filteredTransactions == Filter(transactions, index)
      ensures old(balance == SignedSum(transactions)) ==> Consistent()
    {
      selectedSegmentIndex := index;
      FilterTransactions();
    }

    /** `filterTransactions`: assign the view for the selected segment. */
    method FilterTransactions()
      modifies this`filteredTransactions
      ensures filteredTransactions == Filter(transactions, selectedSegmentIndex)
      ensures IsSubsequence(filteredTransactions, transactions)
      ensures selectedSegmentIndex != 1 && selectedSegmentIndex != 2 ==> filteredTransactions == transactions
    {
      FilterSelects(transactions, selectedSegmentIndex);
      match selectedSegmentIndex
      case 0 => filteredTransactions := transactions;
      case 1 => filteredTransactions := OfType(transactions, Income);
      case 2 => filteredTransactions := OfType(transactions, Expense);
      case _ => filteredTransactions := transactions;
    }

    /** `updateBalance`: fold the ledger into the balance. */
    method UpdateBalance()
      modifies this`balance
      ensures balance == SignedSum(transactions)
      ensures transactions == [] ==> balance == 0.0
    {
      balance := Reduce(0.0, transactions);
    }

    /** `addIncomeTapped`: the next entry is income; the action sheet offers `offered`. */
    method AddIncomeTapped() returns (offered: seq<string>)
      modifies this`isIncome
      ensures isIncome && offered == incomeCategories
    {
      isIncome := true;
      offered := incomeCategories;
    }

    /** `addExpenseTapped`: the next entry is an expense; the action sheet offers `offered`. */
    method AddExpenseTapped() returns (offered: seq<string>)
      modifies this`isIncome
      ensures !isIncome && offered == expenseCategories
    {
      isIncome := false;
      offered := expenseCategories;
    }

    /** The action sheet's handler for `category`: remember it, then confirm with the amount
        field's parsed value `amount` at time `now`. */
    method SelectCategory(category: string, amount: Option<real>, now: int)
      modifies this`selectedCategory, this`transactions, this`balance, this`filteredTransactions
      ensures selectedCategory == Some(category)
      ensures amount.None? ==> transactions == old(transactions) && balance == old(balance)
                               && filteredTransactions == old(filteredTransactions)
      ensures amount.Some? ==>
        transactions == [Transaction(if isIncome then Income else Expense, category, amount.value, now)] + old(transactions)
      ensures amount.Some? ==> Consistent()
    {
      selectedCategory := Some(category);
      ConfirmTransaction(amount, now);
    }

    /** `confirmTransaction`. `amount` is the amount field's text parsed as a number (None when
        the field is empty or does not parse) and `now` is the clock reading for the new entry.
        Without an amount or a category nothing changes; otherwise the new entry goes to the head
        of the ledger and balance and view are recomputed. */
    method ConfirmTransaction(amount: Option<real>, now: int)
      modifies this`transactions, this`balance, this`filteredTransactions
      ensures amount.None? || selectedCategory.None? ==>
        transactions == old(transactions) && balance == old(balance) && filteredTransactions == old(filteredTransactions)
      ensures amount.Some? && selectedCategory.Some? ==>
        transactions == [Transaction(if isIncome then Income else Expense, selectedCategory.value, amount.value, now)]
                        + old(transactions)
      ensures amount.Some? && selectedCategory.Some? ==>
        |transactions| == |old(transactions)| + 1 && (transactions[0].kind == Income <==> isIncome)
        && forall i :: 0 <= i < |old(transactions)| ==> transactions[i + 1] == old(transactions)[i]
      ensures amount.Some? && selectedCategory.Some? ==> Consistent()
      ensures amount.Some? && selectedCategory.Some? && old(balance == SignedSum(transactions)) ==>
        balance == old(balance) + SignedAmount(transactions[0])
      ensures old(WellTyped(transactions)) ==> WellTyped(transactions)
      ensures old(Consistent()) ==> Consistent()
    {
      if amount.None? || selectedCategory.None? {
        return;
      }
      var kind := if isIncome then Income else Expense;
      var entry := Transaction(kind, selectedCategory.value, amount.value, now);
      ghost var ledger := transactions;
      transactions := [entry] + transactions;
      assert transactions[0] == entry && transactions[1..] == ledger;
      UpdateBalance();
      FilterTransactions();
    }

    /** The swipe-to-delete action on table row `row`: remove the first ledger entry equal to the
        row's entry (if any), remove the row from the view, and recompute the balance. The view is
        not recomputed from the ledger. */
    method DeleteRow(row: nat)
      requires row < |filteredTransactions|
      modifies this`transactions, this`filteredTransactions, this`balance
      ensures transactions == RemoveFirstMatch(old(transactions), old(filteredTransactions[row]))
      ensures filteredTransactions == RemoveAt(old(filteredTransactions), row)
      ensures balance == SignedSum(transactions)
      ensures old(filteredTransactions[row]) in old(transactions) ==>
        balance == old(SignedSum(transactions)) - SignedAmount(old(filteredTransactions[row]))
      ensures old(filteredTransactions[row]) !in old(transactions) ==> transactions == old(transactions)
      ensures old(Consistent()) && Distinct(old(transactions)) ==> Consistent()
    {
      ghost var ledger, view, wasConsistent := transactions, filteredTransactions, Consistent();
      var target := filteredTransactions[row];
      var found := FirstMatchIndex(transactions, target);
      if found.Some? {
        SignedSumRemoveAt(transactions, found.value);
        transactions := RemoveAt(transactions, found.value);
      }
      assert transactions == RemoveFirstMatch(ledger, target);
      filteredTransactions := RemoveAt(filteredTransactions, row);
      UpdateBalance();
      if wasConsistent && Distinct(ledger) {
        assert view == Filter(ledger, selectedSegmentIndex);
        DeleteKeepsViewWhenDistinct(ledger, selectedSegmentIndex, row);
        assert filteredTransactions == Filter(transactions, selectedSegmentIndex);
      }
    }

    /** The "clear all" confirmation handler: empty the ledger, then recompute balance and view. */
    method ClearAll()
      modifies this`transactions, this`balance, this`filteredTransactions
      ensures transactions == [] && balance == 0.0 && filteredTransactions == []
      ensures Consistent()
    {
      transactions := [];
      UpdateBalance();
      FilterTransactions();
    }
  }

  /** A session on a fresh screen, reasoned about from the handlers' contracts alone: a salary
      and a rent entry give a balance of 3500, the expense segment shows only the rent, and
      deleting that row brings the balance back to 5000 with one entry left. */
  method SalaryAndRentSession()
  {
    var screen := new ViewController(0);
    screen.ViewDidLoad(None);
    var _ := screen.AddIncomeTapped();
    screen.SelectCategory("Maaş", Some(5000.0), 1);
    var _ := screen.AddExpenseTapped();
    screen.SelectCategory("Kira", Some(1500.0), 2);
    var salary, rent := Transaction(Income, "Maaş", 5000.0, 1), Transaction(Expense, "Kira", 1500.0, 2);
    assert screen.transactions == [rent, salary];
    assert screen.balance == 3500.0;
    screen.SegmentChanged(2);
    assert [rent, salary][1..] == [salary] && [salary][1..] == [];
    assert OfType([rent, salary], Expense) == [rent];
    assert screen.filteredTransactions == [rent];
    screen.DeleteRow(0);
    assert screen.transactions == [salary];
    assert screen.balance == 5000.0;
  }
}
