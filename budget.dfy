/**
 * The budget manager's records and the pure list work of its page: the
 * filter/reduce totals of expenses and groceries, the validation of the two
 * add forms, the sort by amount after an add, delete and toggle by id, and
 * the totals the budget summary PDF prints. Amounts and prices are the
 * integers parseInt produced.
 */
module Budget {
  import opened Wrappers
  import opened JsText
  import opened Seqs

  datatype ExpenseCategory = Logement | Transport | Alimentation | Abonnements | Loisirs | Autre

  datatype ExpenseType = Fixe | Variable

  /** An expense; the record's field `type` is called `expenseType` here. */
  datatype Expense = Expense(id: JsString, name: JsString, amount: int, category: ExpenseCategory, expenseType: ExpenseType)

  datatype GroceryItem = GroceryItem(id: JsString, name: JsString, price: int, purchased: bool)

  /** What the page saves to and loads from a file. */
  datatype BudgetDatabase = BudgetDatabase(expenses: seq<Expense>, groceryList: seq<GroceryItem>)

  function Amount(e: Expense): int { e.amount }

  function Price(g: GroceryItem): int { g.price }

  predicate IsFixed(e: Expense) { e.expenseType == Fixe }

  predicate IsVariable(e: Expense) { e.expenseType == Variable }

  predicate IsPurchased(g: GroceryItem) { g.purchased }

  predicate IsPending(g: GroceryItem) { !g.purchased }

  // ---------------------------------------------------------------- expenses

  datatype ExpenseTotals = ExpenseTotals(
    grandTotal: int, fixedTotal: int, variableTotal: int,
    fixedExpenses: seq<Expense>, variableExpenses: seq<Expense>)

  /**
   * The memoised expense summary: the expenses of each type and the sum of
   * their amounts. Every expense is of exactly one type, so the grand total
   * is the sum of all amounts and the two lists share the expenses out.
   */
  function ExpenseSummary(expenses: seq<Expense>): (t: ExpenseTotals)
    ensures t.grandTotal == Sum(expenses, Amount)
    ensures t.grandTotal == t.fixedTotal + t.variableTotal
    ensures t.fixedTotal == Sum(t.fixedExpenses, Amount) && t.variableTotal == Sum(t.variableExpenses, Amount)
    ensures t.fixedTotal == SumWhere(expenses, IsFixed, Amount)
    ensures t.variableTotal == SumWhere(expenses, IsVariable, Amount)
    ensures forall e :: e in t.fixedExpenses <==> e in expenses && e.expenseType == Fixe
    ensures forall e :: e in t.variableExpenses <==> e in expenses && e.expenseType == Variable
    ensures |t.fixedExpenses| + |t.variableExpenses| == |expenses|
  {
    var fixedExpenses := Filter(expenses, IsFixed);
    var variableExpenses := Filter(expenses, IsVariable);
    var fixedTotal := Sum(fixedExpenses, Amount);
    var variableTotal := Sum(variableExpenses, Amount);
    FilterMembers(expenses, IsFixed);
    FilterMembers(expenses, IsVariable);
    SumFilterSplit(expenses, IsFixed, IsVariable, Amount);
    FilterSplitLength(expenses, IsFixed, IsVariable);
    SumFilterWhere(expenses, IsFixed, Amount);
    SumFilterWhere(expenses, IsVariable, Amount);
    ExpenseTotals(fixedTotal + variableTotal, fixedTotal, variableTotal, fixedExpenses, variableExpenses)
  }

  /**
   * The add forms' check: the name must not be blank once trimmed, and the
   * text must parse (parseInt, base 10) to a positive integer, which is
   * then the amount.
   */
  function ValidatedAmount(name: JsString, amountText: JsString): (r: Option<int>)
    ensures r.Some? ==> r.value > 0 && ParseInt(amountText) == Some(r.value)
    ensures r.None? <==> AllWhiteSpace(name) || ParseInt(amountText).None? || ParseInt(amountText).value <= 0
  {
    var parsed := ParseInt(amountText);
    if Trim(name) == [] || parsed.None? || parsed.value <= 0 then None else parsed
  }

  /** A name with a visible character and a decimal amount: accepted exactly when the amount is positive. */
  lemma ValidatedDecimal(name: JsString, n: nat)
    requires !AllWhiteSpace(name)
    ensures ValidatedAmount(name, DecimalString(n)) == if n > 0 then Some(n as int) else None
  {
    ParseIntDecimalString(n);
  }

  /** A signed amount is always refused, and so is any amount with a blank name. */
  lemma ValidatedRejects(name: JsString, n: nat, text: JsString)
    ensures ValidatedAmount(name, [MINUS] + DecimalString(n)) == None
    ensures AllWhiteSpace(name) ==> ValidatedAmount(name, text) == None
  {
    ParseIntNegated(n);
  }

  predicate SortedByAmountDesc(s: seq<Expense>)
  {
    forall i, j :: 0 <= i < j < |s| ==> s[i].amount >= s[j].amount
  }

  /**
   * One step of the stable sort with comparator `b.amount - a.amount`: `e`,
   * which came first, goes before the first element whose amount does not
   * exceed its own.
   */
  function InsertByAmount(e: Expense, s: seq<Expense>): (r: seq<Expense>)
    ensures multiset(r) == multiset(s) + multiset{e}
    ensures |r| == |s| + 1
  {
    if s == [] || s[0].amount <= e.amount then [e] + s
    else
      assert s == [s[0]] + s[1..];
      [s[0]] + InsertByAmount(e, s[1..])
  }

  /** Inserting into a list in order keeps it in order. */
  lemma {:induction false} InsertKeepsOrder(e: Expense, s: seq<Expense>)
    requires SortedByAmountDesc(s)
    ensures SortedByAmountDesc(InsertByAmount(e, s))
  {
    if s != [] && s[0].amount > e.amount {
      InsertKeepsOrder(e, s[1..]);
      var rest := InsertByAmount(e, s[1..]);
      forall j | 0 <= j < |rest| ensures rest[j].amount <= s[0].amount {
        assert rest[j] in multiset(rest);
        if rest[j] != e {
          assert rest[j] in multiset(s[1..]);
          var k :| 0 <= k < |s[1..]| && s[1..][k] == rest[j];
          assert s[k + 1] == rest[j];
        }
      }
    }
  }

  /**
   * `Array.prototype.sort((a, b) => b.amount - a.amount)`: amounts
   * non-increasing, the same expenses, and (the sort is stable) equal
   * amounts in their original order.
   */
  function SortByAmountDesc(s: seq<Expense>): (r: seq<Expense>)
    ensures SortedByAmountDesc(r)
    ensures multiset(r) == multiset(s)
  {
    if s == [] then []
    else
      assert s == [s[0]] + s[1..];
      var rest := SortByAmountDesc(s[1..]);
      InsertKeepsOrder(s[0], rest);
      InsertByAmount(s[0], rest)
  }

  /** A list already in order is left as it is; in particular sorting twice is sorting once. */
  lemma {:induction false} SortOfSorted(s: seq<Expense>)
    requires SortedByAmountDesc(s)
    ensures SortByAmountDesc(s) == s
  {
    if s != [] {
      SortOfSorted(s[1..]);
    }
  }

  lemma SortIdempotent(s: seq<Expense>)
    ensures SortByAmountDesc(SortByAmountDesc(s)) == SortByAmountDesc(s)
  {
    SortOfSorted(SortByAmountDesc(s));
  }

  /** Reference for an add to a sorted list: the new expense goes after every expense whose amount is not below its own. */
  function InsertAfterEqual(e: Expense, s: seq<Expense>): (r: seq<Expense>)
    ensures |r| == |s| + 1
    ensures r[0] == e || (s != [] && r[0] == s[0])
  {
    if s == [] || s[0].amount < e.amount then [e] + s
    else [s[0]] + InsertAfterEqual(e, s[1..])
  }

  /**
   * Adding to a list that is in order (every list the add form builds is):
   * the new expense lands after all expenses with an equal amount, the
   * others keep their places.
   */
  lemma {:induction false} SortAfterAppend(s: seq<Expense>, e: Expense)
    requires SortedByAmountDesc(s)
    ensures SortByAmountDesc(s + [e]) == InsertAfterEqual(e, s)
  {
    if s != [] {
      var t := s + [e];
      assert t[0] == s[0] && t[1..] == s[1..] + [e];
      SortAfterAppend(s[1..], e);
      SortStep(t);
      InsertThenAppend(s, e);
    }
  }

  lemma SortStep(t: seq<Expense>)
    requires t != []
    ensures SortByAmountDesc(t) == InsertByAmount(t[0], SortByAmountDesc(t[1..]))
  {
  }

  /** Where the head of a list in order goes once `e` has been placed among the rest. */
  lemma InsertThenAppend(s: seq<Expense>, e: Expense)
    requires s != []
    requires |s| > 1 ==> s[1].amount <= s[0].amount
    ensures InsertByAmount(s[0], InsertAfterEqual(e, s[1..])) == InsertAfterEqual(e, s)
  {
    var x := InsertAfterEqual(e, s[1..]);
    if s[0].amount < e.amount {
      assert x == [e] + s[1..] by {
        if s[1..] != [] {
          assert s[1] == s[1..][0];
        }
      }
      assert x[1..] == s[1..];
      assert InsertByAmount(s[0], s[1..]) == [s[0]] + s[1..];
      assert s == [s[0]] + s[1..];
    } else {
      assert x[0].amount <= s[0].amount by {
        if x[0] != e {
          assert s[1..] != [] && x[0] == s[1];
        }
      }
    }
  }

  /** The list an accepted add leaves: the old expenses and the new one, sorted. */
  function AddExpense(expenses: seq<Expense>, e: Expense): (r: seq<Expense>)
    ensures SortedByAmountDesc(r)
    ensures multiset(r) == multiset(expenses) + multiset{e}
    ensures |r| == |expenses| + 1
  {
    var r := SortByAmountDesc(expenses + [e]);
    assert |multiset(r)| == |multiset(expenses + [e])|;
    r
  }

  /** An add raises the grand total and its type's total by the new amount, and leaves the other type's total alone. */
  lemma AddExpenseTotals(expenses: seq<Expense>, e: Expense)
    ensures var before, after := ExpenseSummary(expenses), ExpenseSummary(AddExpense(expenses, e));
      && after.grandTotal == before.grandTotal + e.amount
      && after.fixedTotal == before.fixedTotal + (if e.expenseType == Fixe then e.amount else 0)
      && after.variableTotal == before.variableTotal + (if e.expenseType == Variable then e.amount else 0)
  {
    var s := expenses + [e];
    var r := AddExpense(expenses, e);
    SumPermutation(r, s, Amount);
    SumFilterPermutation(r, s, IsFixed, Amount);
    SumFilterPermutation(r, s, IsVariable, Amount);
    SumConcat(expenses, [e], Amount);
    FilterConcat(expenses, [e], IsFixed);
    FilterConcat(expenses, [e], IsVariable);
    SumConcat(Filter(expenses, IsFixed), Filter([e], IsFixed), Amount);
    SumConcat(Filter(expenses, IsVariable), Filter([e], IsVariable), Amount);
  }

  /** `deleteExpense(id)`: the expenses whose id differs, in their order. */
  function RemoveExpense(expenses: seq<Expense>, id: JsString): (r: seq<Expense>)
    ensures forall e :: e in r <==> e in expenses && e.id != id
    ensures |r| <= |expenses|
  {
    FilterMembers(expenses, (e: Expense) => e.id != id);
    Filter(expenses, (e: Expense) => e.id != id)
  }

  /**
   * Deleting removes every occurrence of the entries with the id and keeps
   * every occurrence of the others; it works piecewise, so the order of
   * what remains is the old order; with no entry carrying the id it changes
   * nothing.
   */
  lemma RemoveExpenseExactly(expenses: seq<Expense>, more: seq<Expense>, id: JsString, x: Expense)
    ensures multiset(RemoveExpense(expenses, id))[x] == if x.id == id then 0 else multiset(expenses)[x]
    ensures RemoveExpense(expenses + more, id) == RemoveExpense(expenses, id) + RemoveExpense(more, id)
    ensures (forall i :: 0 <= i < |expenses| ==> expenses[i].id != id) ==> RemoveExpense(expenses, id) == expenses
  {
    FilterMultiset(expenses, (e: Expense) => e.id != id, x);
    FilterConcat(expenses, more, (e: Expense) => e.id != id);
    if forall i :: 0 <= i < |expenses| ==> expenses[i].id != id {
      FilterAll(expenses, (e: Expense) => e.id != id);
    }
  }

  // --------------------------------------------------------------- groceries

  datatype GroceryTotals = GroceryTotals(budgetTotal: int, purchasedTotal: int, remainingTotal: int)

  /** The memoised grocery summary: the planned total, the part already bought and the part still to buy. */
  function GrocerySummary(items: seq<GroceryItem>): (t: GroceryTotals)
    ensures t.budgetTotal == Sum(items, Price)
    ensures t.purchasedTotal == SumWhere(items, IsPurchased, Price)
    ensures t.remainingTotal == Sum(Filter(items, IsPending), Price)
    ensures (forall i :: 0 <= i < |items| ==> items[i].price >= 0) ==> 0 <= t.remainingTotal <= t.budgetTotal
  {
    var budgetTotal := Sum(items, Price);
    var purchasedTotal := Sum(Filter(items, IsPurchased), Price);
    SumFilterSplit(items, IsPurchased, IsPending, Price);
    SumFilterWhere(items, IsPurchased, Price);
    FilteredPricesNonNegative(items);
    GroceryTotals(budgetTotal, purchasedTotal, budgetTotal - purchasedTotal)
  }

  /** With no negative price, the bought part and the rest are not negative either. */
  lemma FilteredPricesNonNegative(items: seq<GroceryItem>)
    ensures (forall i :: 0 <= i < |items| ==> items[i].price >= 0) ==>
      Sum(Filter(items, IsPurchased), Price) >= 0 && Sum(Filter(items, IsPending), Price) >= 0
  {
    if forall i :: 0 <= i < |items| ==> items[i].price >= 0 {
      var purchased := Filter(items, IsPurchased);
      var pending := Filter(items, IsPending);
      FilterMembers(items, IsPurchased);
      FilterMembers(items, IsPending);
      assert forall i :: 0 <= i < |purchased| ==> purchased[i] in items;
      assert forall i :: 0 <= i < |pending| ==> pending[i] in items;
      SumNonNegative(purchased, Price);
      SumNonNegative(pending, Price);
    }
  }

  /** An added item is not bought yet: the planned and remaining totals grow by its price, the bought total stays. */
  lemma AddGroceryTotals(items: seq<GroceryItem>, g: GroceryItem)
    requires !g.purchased
    ensures var before, after := GrocerySummary(items), GrocerySummary(items + [g]);
      && after.budgetTotal == before.budgetTotal + g.price
      && after.purchasedTotal == before.purchasedTotal
      && after.remainingTotal == before.remainingTotal + g.price
  {
    SumConcat(items, [g], Price);
    SumFilterWhere(items, IsPurchased, Price);
    SumFilterWhere(items + [g], IsPurchased, Price);
    FilterConcat(items, [g], IsPurchased);
    SumConcat(Filter(items, IsPurchased), Filter([g], IsPurchased), Price);
  }

  /** `deleteGroceryItem(id)`: the items whose id differs, in their order. */
  function RemoveGroceryItem(items: seq<GroceryItem>, id: JsString): (r: seq<GroceryItem>)
    ensures forall g :: g in r <==> g in items && g.id != id
    ensures |r| <= |items|
  {
    FilterMembers(items, (g: GroceryItem) => g.id != id);
    Filter(items, (g: GroceryItem) => g.id != id)
  }

  /** As for expenses: exactly the items with the id go, the rest keep their order. */
  lemma RemoveGroceryItemExactly(items: seq<GroceryItem>, more: seq<GroceryItem>, id: JsString, x: GroceryItem)
    ensures multiset(RemoveGroceryItem(items, id))[x] == if x.id == id then 0 else multiset(items)[x]
    ensures RemoveGroceryItem(items + more, id) == RemoveGroceryItem(items, id) + RemoveGroceryItem(more, id)
    ensures (forall i :: 0 <= i < |items| ==> items[i].id != id) ==> RemoveGroceryItem(items, id) == items
  {
    FilterMultiset(items, (g: GroceryItem) => g.id != id, x);
    FilterConcat(items, more, (g: GroceryItem) => g.id != id);
    if forall i :: 0 <= i < |items| ==> items[i].id != id {
      FilterAll(items, (g: GroceryItem) => g.id != id);
    }
  }

  /**
   * `toggleGroceryItem(id)`: the same items in the same order, with the
   * bought flag flipped on exactly those whose id matches.
   */
  function ToggleGroceryItem(items: seq<GroceryItem>, id: JsString): (r: seq<GroceryItem>)
    ensures |r| == |items|
    ensures forall i :: 0 <= i < |r| ==>
      r[i].id == items[i].id && r[i].name == items[i].name && r[i].price == items[i].price
    ensures forall i :: 0 <= i < |r| ==> (r[i].purchased != items[i].purchased <==> items[i].id == id)
  {
    if items == [] then []
    else
      var g := items[0];
      [if g.id == id then g.(purchased := !g.purchased) else g] + ToggleGroceryItem(items[1..], id)
  }

  /** Toggling the same id twice gives back the list, and a toggle never changes the planned total. */
  lemma ToggleTwice(items: seq<GroceryItem>, id: JsString)
    ensures ToggleGroceryItem(ToggleGroceryItem(items, id), id) == items
    ensures GrocerySummary(ToggleGroceryItem(items, id)).budgetTotal == GrocerySummary(items).budgetTotal
  {
    var r := ToggleGroceryItem(ToggleGroceryItem(items, id), id);
    assert forall i :: 0 <= i < |items| ==> r[i] == items[i];
    ToggleKeepsPrices(items, id);
  }

  lemma {:induction false} ToggleKeepsPrices(items: seq<GroceryItem>, id: JsString)
    ensures Sum(ToggleGroceryItem(items, id), Price) == Sum(items, Price)
  {
    if items != [] {
      ToggleKeepsPrices(items[1..], id);
    }
  }

  // ---------------------------------------------------------- summary PDF

  const GrocerySummaryId: JsString := Bmp("grocery-summary-pdf")
  const GrocerySummaryName: JsString := Bmp("Total Liste de Courses")

  /** What the budget PDF prints: the fixed total, the variable rows with their total, and the grand total. */
  datatype PdfTotals = PdfTotals(
    fixedTotal: int, variableExpensesForPdf: seq<Expense>,
    variableTotalForPdf: int, grandTotalForPdf: int)

  /**
   * The PDF's figures, or `None` when the page produces no PDF (no
   * expenses and a zero grocery total). Groceries count as one variable
   * expense: their total is added to the variable and grand totals, and a
   * row for it is listed when it is positive.
   */
  function BudgetPdfTotals(expenses: seq<Expense>, groceryList: seq<GroceryItem>): (r: Option<PdfTotals>)
    ensures r.None? <==> |expenses| == 0 && Sum(groceryList, Price) == 0
    ensures r.Some? ==> r.value.grandTotalForPdf == Sum(expenses, Amount) + Sum(groceryList, Price)
    ensures r.Some? ==> r.value.fixedTotal + r.value.variableTotalForPdf == r.value.grandTotalForPdf
    ensures r.Some? ==> r.value.fixedTotal == SumWhere(expenses, IsFixed, Amount)
    ensures r.Some? ==> r.value.variableTotalForPdf == SumWhere(expenses, IsVariable, Amount) + Sum(groceryList, Price)
    ensures r.Some? ==> forall e :: e in r.value.variableExpensesForPdf ==> e.expenseType == Variable
    ensures r.Some? ==>
      |r.value.variableExpensesForPdf| == |Filter(expenses, IsVariable)| + (if Sum(groceryList, Price) > 0 then 1 else 0)
    ensures r.Some? ==> r.value.variableExpensesForPdf[..|Filter(expenses, IsVariable)|] == Filter(expenses, IsVariable)
    ensures r.Some? && Sum(groceryList, Price) > 0 ==>
      var rows := r.value.variableExpensesForPdf;
      rows[|rows| - 1] == Expense(GrocerySummaryId, GrocerySummaryName, Sum(groceryList, Price), Alimentation, Variable)
    ensures r.Some? ==>
      (Sum(r.value.variableExpensesForPdf, Amount) == r.value.variableTotalForPdf <==> Sum(groceryList, Price) >= 0)
  {
    var summary := ExpenseSummary(expenses);
    var budgetTotal := GrocerySummary(groceryList).budgetTotal;
    if |expenses| == 0 && budgetTotal == 0 then None
    else
      var extra := if budgetTotal > 0 then [Expense(GrocerySummaryId, GrocerySummaryName, budgetTotal, Alimentation, Variable)] else [];
      var rows := summary.variableExpenses + extra;
      SumConcat(summary.variableExpenses, extra, Amount);
      assert rows[..|summary.variableExpenses|] == summary.variableExpenses;
      var variableTotalForPdf := summary.variableTotal + budgetTotal;
      Some(PdfTotals(summary.fixedTotal, rows, variableTotalForPdf, summary.fixedTotal + variableTotalForPdf))
  }

  /**
   * The table rows of the variable expenses sum to the table's footer
   * whenever the prices are the positive ones the add form accepts (a
   * negative grocery total would be added to the footer but get no row).
   */
  lemma PdfFooterMatchesRows(expenses: seq<Expense>, groceryList: seq<GroceryItem>)
    requires forall i :: 0 <= i < |groceryList| ==> groceryList[i].price > 0
    requires BudgetPdfTotals(expenses, groceryList).Some?
    ensures var t := BudgetPdfTotals(expenses, groceryList).value;
      Sum(t.variableExpensesForPdf, Amount) == t.variableTotalForPdf
  {
    SumNonNegative(groceryList, Price);
  }
}
