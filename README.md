# WalletAzad ledger, modelled in Dafny

WalletAzad is a personal finance app. It records income ("Gelir") and expense ("Gider")
transactions, shows a running balance, and lists the transactions in a table. A segmented control
filters the list to all entries, income only or expense only. Swiping a row deletes it. A button
clears everything.

This project models the ledger that the app's single screen controller (`ViewController`) keeps
in three fields:

- `transactions`: every entry, newest first;
- `filteredTransactions`: the rows the table shows;
- `balance`: the balance.

It also models the handlers that change those fields:

- loading at start-up;
- switching the segment;
- adding an entry;
- deleting a row;
- clearing all entries.

Files:

- `ledger.dfy`, module `Ledger`:
  - the `Transaction` record and the two type tags;
  - `RemoveAt`, which is `remove(at:)`;
  - the delete action's match test and `firstIndex(where:)` search, with the first-match removal built on them.
- `projection.dfy`, module `Projection`:
  - the type filter and the segment view `Filter`;
  - the balance fold `Reduce`, proved equal to the reference sum `SignedSum`;
  - the lemmas relating deletion in the ledger to deletion in the view.
- `view_controller.dfy`, module `Wallet`:
  - the class `ViewController`, holding the ledger fields and one method per handler;
  - `Consistent()`, which says that the balance is the ledger's signed sum and that the view is `Filter(transactions, selectedSegmentIndex)`;
  - a client method that replays a salary-and-rent session using only the handlers' contracts.

Abstractions:

- Amounts are exact `real`s, not IEEE doubles.
- Dates are opaque `int` timestamps.
- The `type` field is kept as a free string, named `kind` because `type` is a Dafny keyword. The
  balance fold treats every type other than "Gelir" as an expense, as the app does.
- Parsing the amount text field with `Double(_:)` is an input `Option<real>`.
- The clock reading `Date()` is an input `now`.
- Reading the stored file at start-up is an input `Option<seq<Transaction>>`. `None` means that
  reading or decoding failed.

Two modelling choices follow the app's code:

- The type is an open string, not a closed two-valued tag.
- A failed load leaves the ledger in memory unchanged. It does not reset the ledger to empty.

## Model

| member | source | states |
|---|---|---|
| Ledger.SameEntry | WalletAzad/WalletAzad/ViewController.swift:192-197 | The delete action's test (equal date, amount, category and type) holds exactly when the two entries are equal. Strings compare by code point and amounts exactly; see `Ledger.SameEntry` under "## Left out". |
| Ledger.RemoveAt | WalletAzad/WalletAzad/ViewController.swift:198 | `remove(at: i)` shortens by one. Entries before `i` keep their index and entries after it move down by one. |
| Ledger.RemoveAtMultiset | WalletAzad/WalletAzad/ViewController.swift:198 | `remove(at: i)` takes exactly one copy of the element at `i` out of the multiset. |
| Ledger.FirstMatchIndex | WalletAzad/WalletAzad/ViewController.swift:192-197 | `firstIndex(where:)` returns an index whose entry matches, with no match before it. It returns None exactly when no entry matches. |
| Ledger.RemoveFirstMatch | WalletAzad/WalletAzad/ViewController.swift:192-199 | With no match the ledger is unchanged. Otherwise it is one entry shorter and one copy of the target is gone. |
| Ledger.RemoveFirstMatchAt | WalletAzad/WalletAzad/ViewController.swift:192-199 | The removed entry is the first occurrence. Everything before and after it keeps its relative order. |
| Ledger.DistinctFirstMatch | WalletAzad/WalletAzad/ViewController.swift:192-198 | In a ledger without duplicates, removing the first match of the entry at `i` is removing index `i`. |
| Projection.OfType | WalletAzad/WalletAzad/ViewController.swift:59-62 | Every entry the type filter keeps has that type. When all entries have it, the filter returns the ledger unchanged. |
| Projection.OfTypeSelects | WalletAzad/WalletAzad/ViewController.swift:59-62 | The type filter returns an order-preserving subsequence. It holds each entry of that type as often as the ledger does, and no other entry. |
| Projection.Filter | WalletAzad/WalletAzad/ViewController.swift:55-65 | The view for segment `mode` holds only entries that the segment shows: segment 1 shows "Gelir", segment 2 shows "Gider", and any other index shows all. When every entry is shown it is the ledger itself, so for segment 0 and every unknown index it is exactly `transactions`. |
| Projection.FilterSelects | WalletAzad/WalletAzad/ViewController.swift:55-65 | The view is an order-preserving subsequence of the ledger. It holds each shown entry as often as the ledger does, and no other entry. |
| Projection.IncomeExpensePartition | WalletAzad/WalletAzad/ViewController.swift:59-62 | On a ledger tagged only "Gelir"/"Gider", the income and expense views are disjoint. Together they hold the ledger as a multiset, and their lengths sum to its length. |
| Projection.SignedAmount | WalletAzad/WalletAzad/ViewController.swift:121 | One entry moves the balance by its amount, with the sign kept exactly when the type is "Gelir" and flipped for every other type, for every non-zero amount (negative amounts parse and are not rejected). For a positive amount it moves the balance upwards exactly when the type is "Gelir". |
| Projection.Reduce | WalletAzad/WalletAzad/ViewController.swift:120-122 | The `reduce` fold from any starting value adds the sum of signed amounts (the independent recursive `SignedSum`), so from 0.0 it is the balance. |
| Projection.SignedSumRemoveAt | WalletAzad/WalletAzad/ViewController.swift:198-205 | Removing one entry lowers the recomputed balance by exactly that entry's signed amount. |
| Projection.BalanceIsIncomeMinusExpense | WalletAzad/WalletAzad/ViewController.swift:121 | On a ledger tagged only "Gelir"/"Gider", the balance is the income total minus the expense total. |
| Projection.OfTypeIndex | WalletAzad/WalletAzad/ViewController.swift:59-62 | Gives the ledger position holding the entry shown at a given row of a type view. |
| Projection.OfTypeIndexRemove | WalletAzad/WalletAzad/ViewController.swift:189-202 | Removing the ledger entry at the row's position removes exactly that row from the type view. |
| Projection.ShownIndex | WalletAzad/WalletAzad/ViewController.swift:189-202 | For any segment, gives the ledger position of the row's entry. Removing that position removes exactly that row from the segment's view. This is the corrected delete. |
| Projection.DeleteKeepsViewWhenDistinct | WalletAzad/WalletAzad/ViewController.swift:189-202 | Without duplicate entries, the delete action's two removals agree. The view minus row `row` is the view of the ledger minus the first match. |
| Projection.DuplicateDeleteDesyncsView | WalletAzad/WalletAzad/ViewController.swift:189-202 | Ledger `[x, y, x]`, segment 0, row 2. The two removals disagree: the table shows `[x, y]`, but the ledger's view is `[y, x]`. |
| Wallet.ViewController.constructor | WalletAzad/WalletAzad/ViewController.swift:17-25 | The controller starts with an empty ledger and view, balance 0, no category and income selected. |
| Wallet.ViewController.ViewDidLoad | WalletAzad/WalletAzad/ViewController.swift:43-48 | Load replaces the ledger, or keeps it when the load fails. Balance and view are then recomputed (Consistent). |
| Wallet.ViewController.SegmentChanged | WalletAzad/WalletAzad/ViewController.swift:51-53 | The view becomes the new segment's view of the unchanged ledger. |
| Wallet.ViewController.FilterTransactions | WalletAzad/WalletAzad/ViewController.swift:55-67 | The view becomes `Filter(transactions, selectedSegmentIndex)`, a subsequence of the ledger. Segment 0 and unknown indices give the ledger itself. |
| Wallet.ViewController.UpdateBalance | WalletAzad/WalletAzad/ViewController.swift:120-122 | The balance becomes the signed sum of the ledger, which is 0 for an empty ledger. |
| Wallet.ViewController.AddIncomeTapped | WalletAzad/WalletAzad/ViewController.swift:132-135 | Selects income and offers the income categories. |
| Wallet.ViewController.AddExpenseTapped | WalletAzad/WalletAzad/ViewController.swift:137-140 | Selects expense and offers the expense categories. |
| Wallet.ViewController.SelectCategory | WalletAzad/WalletAzad/ViewController.swift:144-148 | Records the chosen category and confirms. With a parsed amount, the new entry heads the ledger and the state is Consistent. Otherwise nothing in the ledger changes. |
| Wallet.ViewController.ConfirmTransaction | WalletAzad/WalletAzad/ViewController.swift:154-171 | With no amount or no category, ledger, view and balance are unchanged. Otherwise the new entry is prepended at index 0, the length grows by 1 and old entry i moves to i+1. The new type is "Gelir" iff `isIncome`, so all-Gelir/Gider is preserved. The balance grows by the new entry's signed amount, and Consistent is preserved. |
| Wallet.ViewController.DeleteRow | WalletAzad/WalletAzad/ViewController.swift:187-214 | The ledger loses its first entry equal to the row's entry, or is unchanged when none matches. The view loses exactly index `row`. The balance is recomputed and drops by the entry's signed amount when a match existed. Consistent is preserved when the ledger has no duplicates. |
| Wallet.ViewController.ClearAll | WalletAzad/WalletAzad/ViewController.swift:90-96 | The ledger and view are empty and the balance is 0, whatever the segment. |

## Findings

| source | as written | input that shows it | evidently intended | confidence | as-written member | corrected member |
|---|---|---|---|---|---|---|
| WalletAzad/WalletAzad/ViewController.swift:192-202 | The swipe-delete removes the first ledger entry equal to the swiped row's entry, but removes row `row` from the table's view. | Ledger `[x, y, x]` (x an income entry, y an expense entry), segment 0, swipe row 2. The ledger becomes `[y, x]` while the table shows `[x, y]`. The table reorders at the next refresh. | Remove the ledger entry shown at the swiped row, so that the table stays equal to the ledger's view. | not executed; follows from the proved lemma | Projection.DuplicateDeleteDesyncsView | Projection.ShownIndex |

`Wallet.ViewController.DeleteRow` keeps the behaviour as written.
`Projection.DeleteKeepsViewWhenDistinct` shows that the as-written delete is correct whenever the ledger holds no duplicate entries.
`Projection.ShownIndex` is the position-based delete: removing that position keeps the view equal to the ledger's view for every ledger.

## Left out

- Saving and loading the file are not modelled. This covers the JSON encoding and decoding, the file write and read, and the documents-directory URL (`saveTransactionsToFile`, `loadTransactionsFromFile`, `getTransactionsFileURL`). They are I/O through library codecs. Saving does not change the ledger fields, and loading is the `loaded` input of `ViewDidLoad`.
- IEEE `Double` arithmetic is not modelled; amounts are exact reals. Rounding in the balance fold, the `%.2f` formatting, and `Double(_:)` parsing are library behaviour.
- Ledger.SameEntry: compares categories by code point and amounts by exact equality. The app's test uses Swift's `String ==`, which also equates canonically equivalent strings ("Ulaşım" with a precomposed ş and with s plus a combining cedilla), and `Double ==`, under which a NaN amount never matches itself. Two consequences are missed: an entry can match a differently normalized copy that `Distinct` counts as distinct, so `DeleteKeepsViewWhenDistinct` does not cover that case; and a NaN entry's row leaves the view while the entry stays in the ledger. The first needs a stored file with a different Unicode normalization, since the app writes categories only from its own literals. The second needs an amount text that `Double(_:)` parses as NaN, such as "nan". The type tags are unaffected: no other string is canonically equivalent to "Gelir" or "Gider".
- `Date()` is not modelled; the timestamp is the `now` parameter.
- Presentation is not modelled. This covers outlets, the card image, label styling (`updateBalanceLabel`), alerts and action sheets (`showAlert`, the category sheet's layout), the chart segue (`prepare(for:)`), table cell rendering, and the row count. None of them changes ledger state.
- `tableView.deleteRows`, `reloadData`, `completionHandler`, and clearing the amount field after a confirmed entry (:169) are UI effects with no ledger state.
