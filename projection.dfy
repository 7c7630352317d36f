/** What the screen shows of the ledger: the view selected by the segmented control and the
    balance folded from the whole ledger. */
module Projection {
  import opened Ledger

  /** `r` is `s` with some entries dropped and the rest in their original order. */
  predicate IsSubsequence<T(==)>(r: seq<T>, s: seq<T>)
    decreases |s|
  {
    r == [] || (s != [] && ((r[0] == s[0] && IsSubsequence(r[1..], s[1..])) || IsSubsequence(r, s[1..])))
  }

  lemma {:induction false} SubsequenceReflexive<T>(s: seq<T>)
    ensures IsSubsequence(s, s)
  {
    if s != [] {
      SubsequenceReflexive(s[1..]);
    }
  }

  /** The closure `transactions.filter { $0.type == kind }`: every entry it keeps has that type,
      and when every entry has it, it keeps the ledger as it is. */
  function OfType(ledger: seq<Transaction>, kind: string): (r: seq<Transaction>)
    ensures |r| <= |ledger|
    ensures forall i :: 0 <= i < |r| ==> r[i].kind == kind
    ensures (forall i :: 0 <= i < |ledger| ==> ledger[i].kind == kind) ==> r == ledger
  {
    if ledger == [] then []
    else if ledger[0].kind == kind then [ledger[0]] + OfType(ledger[1..], kind)
    else OfType(ledger[1..], kind)
  }

  /** The type filter keeps the ledger's order, and holds every entry of that type as often as
      the ledger does and no other entry. */
  lemma {:induction false} OfTypeSelects(ledger: seq<Transaction>, kind: string)
    ensures IsSubsequence(OfType(ledger, kind), ledger)
    ensures forall e :: multiset(OfType(ledger, kind))[e] == if e.kind == kind then multiset(ledger)[e] else 0
  {
    if ledger != [] {
      OfTypeSelects(ledger[1..], kind);
      assert ledger == [ledger[0]] + ledger[1..];
    }
  }

  /** Whether segment `mode` shows entry `e`: segment 1 shows income, segment 2 shows expense,
      and every other index (0 included) shows everything. */
  predicate Shows(mode: int, e: Transaction) {
    if mode == 1 then e.kind == Income else if mode == 2 then e.kind == Expense else true
  }

  /** The view `filterTransactions` assigns for the segment index `mode`: it shows only entries
      the segment shows, and it is the ledger itself when every entry is shown. */
  function Filter(ledger: seq<Transaction>, mode: int): (r: seq<Transaction>)
    ensures forall i :: 0 <= i < |r| ==> Shows(mode, r[i])
    ensures (forall i :: 0 <= i < |ledger| ==> Shows(mode, ledger[i])) ==> r == ledger
  {
    match mode
    case 0 => ledger
    case 1 => OfType(ledger, Income)
    case 2 => OfType(ledger, Expense)
    case _ => ledger
  }

  /** The view keeps the ledger's order, and holds every shown entry as often as the ledger does
      and no other entry. */
  lemma FilterSelects(ledger: seq<Transaction>, mode: int)
    ensures IsSubsequence(Filter(ledger, mode), ledger)
    ensures forall e :: multiset(Filter(ledger, mode))[e] == if Shows(mode, e) then multiset(ledger)[e] else 0
  {
    match mode
    case 1 => OfTypeSelects(ledger, Income);
    case 2 => OfTypeSelects(ledger, Expense);
    case _ => SubsequenceReflexive(ledger);
  }

  /** On a ledger of income and expense entries, the income view and the expense view split it:
      together they hold every entry exactly once. */
  lemma IncomeExpensePartition(ledger: seq<Transaction>)
    requires WellTyped(ledger)
    ensures multiset(Filter(ledger, 1)) + multiset(Filter(ledger, 2)) == multiset(ledger)
    ensures multiset(Filter(ledger, 1)) !! multiset(Filter(ledger, 2))
    ensures |Filter(ledger, 1)| + |Filter(ledger, 2)| == |ledger|
  {
    var income, expense := Filter(ledger, 1), Filter(ledger, 2);
    FilterSelects(ledger, 1);
    FilterSelects(ledger, 2);
    forall e
      ensures (multiset(income) + multiset(expense))[e] == multiset(ledger)[e]
    {
      if e in ledger {
        var i :| 0 <= i < |ledger| && ledger[i] == e;
      }
    }
    assert multiset(income) + multiset(expense) == multiset(ledger);
    assert |multiset(income) + multiset(expense)| == |multiset(ledger)|;
  }

  /** Signed contribution of one entry (the closure's `$1.type == "Gelir" ? $1.amount : -$1.amount`):
      it moves the balance by the entry's amount, upwards for an income entry and downwards for
      every other type. */
  function SignedAmount(t: Transaction): (r: real)
    ensures r == t.amount || r == -t.amount
    ensures t.amount > 0.0 ==> (r > 0.0 <==> t.kind == Income)
    ensures t.amount != 0.0 ==> (r == t.amount <==> t.kind == Income)
  {
    if t.kind == Income then t.amount else -t.amount
  }

  /** Reference definition of the balance: the sum of the signed amounts of the ledger. */
  function SignedSum(ledger: seq<Transaction>): real {
    if ledger == [] then 0.0 else SignedAmount(ledger[0]) + SignedSum(ledger[1..])
  }

  /** Sum of the (unsigned) amounts of a sequence of entries. */
  function Total(entries: seq<Transaction>): real {
    if entries == [] then 0.0 else entries[0].amount + Total(entries[1..])
  }

  /** `transactions.reduce(0.0) { $0 + ($1.type == "Gelir" ? $1.amount : -$1.amount) }`: a left
      fold that carries the running total from the newest entry to the oldest. It adds the signed
      sum of the ledger to the starting value, so from 0.0 it is the balance. */
  function Reduce(acc: real, ledger: seq<Transaction>): (r: real)
    ensures r == acc + SignedSum(ledger)
    decreases ledger
  {
    if ledger == [] then acc else Reduce(acc + SignedAmount(ledger[0]), ledger[1..])
  }

  lemma {:induction false} SignedSumAppend(a: seq<Transaction>, b: seq<Transaction>)
    ensures SignedSum(a + b) == SignedSum(a) + SignedSum(b)
  {
    if a != [] {
      assert (a + b)[0] == a[0] && (a + b)[1..] == a[1..] + b;
      SignedSumAppend(a[1..], b);
    } else {
      assert a + b == b;
    }
  }

  /** Removing one entry lowers the balance by exactly that entry's signed amount. */
  lemma SignedSumRemoveAt(ledger: seq<Transaction>, i: nat)
    requires i < |ledger|
    ensures SignedSum(RemoveAt(ledger, i)) == SignedSum(ledger) - SignedAmount(ledger[i])
  {
    assert ledger == ledger[..i] + ([ledger[i]] + ledger[i + 1..]);
    SignedSumAppend(ledger[..i], [ledger[i]] + ledger[i + 1..]);
    SignedSumAppend(ledger[..i], ledger[i + 1..]);
  }

  /** On a ledger of income and expense entries, the balance is the income total minus the
      expense total. */
  lemma {:induction false} BalanceIsIncomeMinusExpense(ledger: seq<Transaction>)
    requires WellTyped(ledger)
    ensures SignedSum(ledger) == Total(Filter(ledger, 1)) - Total(Filter(ledger, 2))
  {
    if ledger != [] {
      assert WellTyped(ledger[1..]) by {
        forall i | 0 <= i < |ledger[1..]|
          ensures ledger[1..][i].kind == Income || ledger[1..][i].kind == Expense
        {
          assert ledger[1..][i] == ledger[i + 1];
        }
      }
      BalanceIsIncomeMinusExpense(ledger[1..]);
    }
  }

  lemma RemoveAtCons<T>(h: T, s: seq<T>, j: nat)
    requires j < |s|
    ensures RemoveAt([h] + s, j + 1) == [h] + RemoveAt(s, j)
  {
    assert ([h] + s)[..j + 1] == [h] + s[..j];
    assert ([h] + s)[j + 2..] == s[j + 1..];
  }

  lemma OfTypeCons(h: Transaction, s: seq<Transaction>, kind: string)
    ensures OfType([h] + s, kind) == if h.kind == kind then [h] + OfType(s, kind) else OfType(s, kind)
  {
    assert ([h] + s)[0] == h && ([h] + s)[1..] == s;
  }

  /** The ledger position of the entry shown at `row` of the type-`kind` view. */
  function OfTypeIndex(ledger: seq<Transaction>, kind: string, row: nat): (i: nat)
    requires row < |OfType(ledger, kind)|
    ensures i < |ledger| && ledger[i] == OfType(ledger, kind)[row]
  {
    if ledger[0].kind != kind then OfTypeIndex(ledger[1..], kind, row) + 1
    else if row == 0 then 0
    else OfTypeIndex(ledger[1..], kind, row - 1) + 1
  }

  /** Deleting the ledger position of the entry shown at `row` removes exactly that row from
      the type-`kind` view. */
  lemma {:induction false} OfTypeIndexRemove(ledger: seq<Transaction>, kind: string, row: nat)
    requires row < |OfType(ledger, kind)|
    ensures OfType(RemoveAt(ledger, OfTypeIndex(ledger, kind, row)), kind) == RemoveAt(OfType(ledger, kind), row)
    decreases |ledger|, 1
  {
    if ledger[0].kind != kind {
      SkipHidden(ledger, kind, row);
    } else if row == 0 {
      TakeShown(ledger, kind);
    } else {
      KeepShown(ledger, kind, row);
    }
  }

  lemma SkipHidden(ledger: seq<Transaction>, kind: string, row: nat)
    requires 0 < |ledger| && ledger[0].kind != kind && row < |OfType(ledger, kind)|
    ensures OfType(RemoveAt(ledger, OfTypeIndex(ledger, kind, row)), kind) == RemoveAt(OfType(ledger, kind), row)
    decreases |ledger|, 0
  {
    var h, rest := ledger[0], ledger[1..];
    OfTypeIndexRemove(rest, kind, row);
    var j := OfTypeIndex(rest, kind, row);
    assert ledger == [h] + rest;
    calc {
      OfType(RemoveAt(ledger, OfTypeIndex(ledger, kind, row)), kind);
      OfType(RemoveAt([h] + rest, j + 1), kind);
      { RemoveAtCons(h, rest, j); }
      OfType([h] + RemoveAt(rest, j), kind);
      { OfTypeCons(h, RemoveAt(rest, j), kind); }
      OfType(RemoveAt(rest, j), kind);
    }
  }

  lemma TakeShown(ledger: seq<Transaction>, kind: string)
    requires 0 < |ledger| && ledger[0].kind == kind
    ensures OfType(RemoveAt(ledger, OfTypeIndex(ledger, kind, 0)), kind) == RemoveAt(OfType(ledger, kind), 0)
  {
    assert RemoveAt(ledger, 0) == ledger[1..];
  }

  lemma KeepShown(ledger: seq<Transaction>, kind: string, row: nat)
    requires 0 < |ledger| && ledger[0].kind == kind && 0 < row < |OfType(ledger, kind)|
    ensures OfType(RemoveAt(ledger, OfTypeIndex(ledger, kind, row)), kind) == RemoveAt(OfType(ledger, kind), row)
    decreases |ledger|, 0
  {
    var h, rest := ledger[0], ledger[1..];
    OfTypeIndexRemove(rest, kind, row - 1);
    var j := OfTypeIndex(rest, kind, row - 1);
    assert ledger == [h] + rest;
    calc {
      OfType(RemoveAt(ledger, OfTypeIndex(ledger, kind, row)), kind);
      OfType(RemoveAt([h] + rest, j + 1), kind);
      { RemoveAtCons(h, rest, j); }
      OfType([h] + RemoveAt(rest, j), kind);
      { OfTypeCons(h, RemoveAt(rest, j), kind); }
      [h] + OfType(RemoveAt(rest, j), kind);
      [h] + RemoveAt(OfType(rest, kind), row - 1);
      { RemoveAtCons(h, OfType(rest, kind), row - 1); }
      RemoveAt([h] + OfType(rest, kind), row);
      { OfTypeCons(h, rest, kind); }
      RemoveAt(OfType(ledger, kind), row);
    }
  }

  /** The ledger position of the entry shown at `row` of segment `mode`'s view; deleting that
      position removes exactly that row from the view. */
  function ShownIndex(ledger: seq<Transaction>, mode: int, row: nat): (i: nat)
    requires row < |Filter(ledger, mode)|
    ensures i < |ledger| && ledger[i] == Filter(ledger, mode)[row]
    ensures Filter(RemoveAt(ledger, i), mode) == RemoveAt(Filter(ledger, mode), row)
  {
    match mode
    case 1 => OfTypeIndexRemove(ledger, Income, row); OfTypeIndex(ledger, Income, row)
    case 2 => OfTypeIndexRemove(ledger, Expense, row); OfTypeIndex(ledger, Expense, row)
    case _ => row
  }

  /** When the ledger has no duplicate entries, deleting the first ledger entry equal to the one
      at `row` of the view leaves the view equal to the view with `row` removed. */
  lemma DeleteKeepsViewWhenDistinct(ledger: seq<Transaction>, mode: int, row: nat)
    requires Distinct(ledger) && row < |Filter(ledger, mode)|
    ensures Filter(RemoveFirstMatch(ledger, Filter(ledger, mode)[row]), mode)
         == RemoveAt(Filter(ledger, mode), row)
  {
    var i := ShownIndex(ledger, mode, row);
    DistinctFirstMatch(ledger, i);
  }

  /** With a duplicated entry the two removals disagree: swiping the last row of [x, y, x] in the
      "all" segment removes the first x from the ledger but the last x from the view, so the view
      reads [x, y] while the ledger's view reads [y, x]. */
  lemma DuplicateDeleteDesyncsView()
    ensures var x := Transaction(Income, "Maaş", 5000.0, 1);
            var y := Transaction(Expense, "Kira", 1500.0, 1);
            var ledger := [x, y, x];
            Filter(RemoveFirstMatch(ledger, Filter(ledger, 0)[2]), 0) != RemoveAt(Filter(ledger, 0), 2)
  {
    var x := Transaction(Income, "Maaş", 5000.0, 1);
    var y := Transaction(Expense, "Kira", 1500.0, 1);
    var ledger := [x, y, x];
    assert FirstMatchIndex(ledger, x) == Some(0);
    assert RemoveFirstMatch(ledger, x)[0] == y;
    assert RemoveAt(ledger, 2)[0] == x;
  }
}
