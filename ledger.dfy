/** The wallet's ledger entries and the sequence operations the view controller applies to the
    ledger: removal at an index and the search for the first entry equal to a given one. */
module Ledger {

  datatype Option<T> = None | Some(value: T)

  /** The two values the app writes into a transaction's `type` field. */
  const Income: string := "Gelir"
  const Expense: string := "Gider"

  /** One ledger entry. `kind` is the `type` field (a free string, in practice "Gelir" or "Gider"),
      `amount` is exact where the app uses a Double, and `date` is an opaque timestamp. */
  datatype Transaction = Transaction(kind: string, category: string, amount: real, date: int)

  /** Every entry carries one of the two tags the app writes. */
  predicate WellTyped(ledger: seq<Transaction>) {
    forall i :: 0 <= i < |ledger| ==> ledger[i].kind == Income || ledger[i].kind == Expense
  }

  /** No two entries agree on the whole (date, amount, category, type) tuple. */
  predicate Distinct(ledger: seq<Transaction>) {
    forall i, j :: 0 <= i < j < |ledger| ==> ledger[i] != ledger[j]
  }

  /** The delete action's match test. The four fields are the whole entry, so the test is
      entry equality. */
  predicate SameEntry(a: Transaction, b: Transaction)
    ensures SameEntry(a, b) <==> a == b
  {
    a.date == b.date && a.amount == b.amount && a.category == b.category && a.kind == b.kind
  }

  /** `remove(at:)`: the entries before `i` keep their places, the ones after move down by one. */
  function RemoveAt<T>(s: seq<T>, i: nat): (r: seq<T>)
    requires i < |s|
    ensures |r| == |s| - 1
    ensures forall j :: 0 <= j < i ==> r[j] == s[j]
    ensures forall j :: i <= j < |r| ==> r[j] == s[j + 1]
  {
    s[..i] + s[i + 1..]
  }

  /** Removing at an index takes exactly one copy of that element out of the multiset. */
  lemma RemoveAtMultiset<T>(s: seq<T>, i: nat)
    requires i < |s|
    ensures multiset(RemoveAt(s, i)) == multiset(s) - multiset{s[i]}
  {
    assert s == s[..i] + [s[i]] + s[i + 1..];
  }

  /** `firstIndex(where:)` with the delete action's match test: the position of the first entry
      equal to `target`, or None when there is none. */
  function FirstMatchIndex(ledger: seq<Transaction>, target: Transaction): (r: Option<nat>)
    ensures r.Some? ==> r.value < |ledger| && SameEntry(ledger[r.value], target)
    ensures r.Some? ==> forall j :: 0 <= j < r.value ==> !SameEntry(ledger[j], target)
    ensures r.None? <==> forall j :: 0 <= j < |ledger| ==> !SameEntry(ledger[j], target)
  {
    if ledger == [] then None
    else if SameEntry(ledger[0], target) then Some(0)
    else match FirstMatchIndex(ledger[1..], target)
      case None => None
      case Some(i) => Some(i + 1)
  }

  /** What the delete action does to the full ledger: drop the first entry equal to `target`,
      if there is one. */
  function RemoveFirstMatch(ledger: seq<Transaction>, target: Transaction): (r: seq<Transaction>)
    ensures target !in ledger ==> r == ledger
    ensures target in ledger ==> |r| == |ledger| - 1 && multiset(r) == multiset(ledger) - multiset{target}
  {
    match FirstMatchIndex(ledger, target)
    case None => ledger
    case Some(i) => RemoveAtMultiset(ledger, i); RemoveAt(ledger, i)
  }

  /** The removed entry is the first occurrence: everything before it and everything after it
      keeps its relative order. */
  lemma RemoveFirstMatchAt(ledger: seq<Transaction>, i: nat)
    requires i < |ledger| && ledger[i] !in ledger[..i]
    ensures RemoveFirstMatch(ledger, ledger[i]) == ledger[..i] + ledger[i + 1..]
  {
  }

  /** In a ledger without duplicate entries, the first entry equal to the one at `i` is that one. */
  lemma DistinctFirstMatch(ledger: seq<Transaction>, i: nat)
    requires Distinct(ledger) && i < |ledger|
    ensures RemoveFirstMatch(ledger, ledger[i]) == RemoveAt(ledger, i)
  {
    RemoveFirstMatchAt(ledger, i);
  }
}
