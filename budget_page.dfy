/**
 * The budget page's state and event handlers. Each field is one piece of
 * React state of the page (the two lists and the text of the add forms);
 * each method is one handler run to completion on the state of one render.
 * The ids that `new Date().toISOString()` would give, the ISO readings of
 * the clock for DTSTAMP, the currency formatter, the parsed import file
 * and the answer to the confirmation dialog are parameters.
 */
module BudgetPage {
  import opened Wrappers
  import opened JsText
  import opened Seqs
  import opened Budget
  import opened Ics
  import opened BudgetImport

  function AddExpenseError(): JsString { Bmp("Veuillez entrer un nom valide et un montant positif.") }

  function AddGroceryError(): JsString { Bmp("Veuillez entrer un nom valide et un prix positif.") }

  class BudgetManager {
    var expenses: seq<Expense>
    var name: JsString
    var amount: JsString
    var category: ExpenseCategory
    var expenseType: ExpenseType
    var error: JsString

    var groceryList: seq<GroceryItem>
    var itemName: JsString
    var itemPrice: JsString
    var groceryError: JsString

    /** The state the page starts with, before anything is read back from storage. */
    constructor ()
      ensures expenses == [] && groceryList == []
      ensures name == [] && amount == [] && error == [] && itemName == [] && itemPrice == [] && groceryError == []
      ensures category == Alimentation && expenseType == Variable
    {
      expenses, name, amount, category, expenseType, error := [], [], [], Alimentation, Variable, [];
      groceryList, itemName, itemPrice, groceryError := [], [], [], [];
    }

    /** The two lists, as the save button writes them. */
    function Database(): BudgetDatabase
      reads this
    {
      BudgetDatabase(expenses, groceryList)
    }

    /**
     * `handleAddExpense`, with `id` the creation time the page uses as id.
     * A blank name or an amount that is not a positive integer sets the
     * error message and changes nothing else; otherwise the new expense is
     * appended, the list sorted by amount, largest first, and the form
     * cleared.
     */
    method HandleAddExpense(id: JsString)
      modifies this
      ensures unchanged(this`groceryList, this`itemName, this`itemPrice, this`groceryError, this`category, this`expenseType)
      ensures ValidatedAmount(old(name), old(amount)).None? ==>
        && error == AddExpenseError()
        && expenses == old(expenses) && name == old(name) && amount == old(amount)
      ensures ValidatedAmount(old(name), old(amount)).Some? ==>
        && expenses == AddExpense(old(expenses), Expense(id, old(name), ValidatedAmount(old(name), old(amount)).value, category, expenseType))
        && name == [] && amount == [] && error == []
      ensures ValidatedAmount(old(name), old(amount)).Some? ==>
        SortedByAmountDesc(expenses) && |expenses| == |old(expenses)| + 1
    {
      var parsedAmount := ValidatedAmount(name, amount);
      if parsedAmount.None? {
        error := AddExpenseError();
      } else {
        AcceptExpense(Expense(id, name, parsedAmount.value, category, expenseType));
      }
    }

    /** The accepted branch of `handleAddExpense`: the sorted update of the list, then the cleared form. */
    method AcceptExpense(newExpense: Expense)
      modifies this
      ensures unchanged(this`groceryList, this`itemName, this`itemPrice, this`groceryError, this`category, this`expenseType)
      ensures expenses == AddExpense(old(expenses), newExpense)
      ensures name == [] && amount == [] && error == []
    {
      var sorted := AddExpense(expenses, newExpense);
      expenses, name, amount, error := sorted, [], [], [];
    }

    /** `deleteExpense(id)`: keeps every expense whose id differs, in order. */
    method DeleteExpense(id: JsString)
      modifies this
      ensures expenses == RemoveExpense(old(expenses), id)
      ensures forall e :: e in expenses <==> e in old(expenses) && e.id != id
      ensures unchanged(this`groceryList, this`name, this`amount, this`error, this`category, this`expenseType)
      ensures unchanged(this`itemName, this`itemPrice, this`groceryError)
    {
      expenses := RemoveExpense(expenses, id);
    }

    /**
     * `handleAddGroceryItem`: the same check on the item's name and price;
     * an accepted item is appended, not yet purchased, and the form cleared.
     */
    method HandleAddGroceryItem(id: JsString)
      modifies this
      ensures unchanged(this`expenses, this`name, this`amount, this`error, this`category, this`expenseType)
      ensures ValidatedAmount(old(itemName), old(itemPrice)).None? ==>
        && groceryError == AddGroceryError()
        && groceryList == old(groceryList) && itemName == old(itemName) && itemPrice == old(itemPrice)
      ensures ValidatedAmount(old(itemName), old(itemPrice)).Some? ==>
        && groceryList == old(groceryList) + [GroceryItem(id, old(itemName), ValidatedAmount(old(itemName), old(itemPrice)).value, false)]
        && itemName == [] && itemPrice == [] && groceryError == []
    {
      var parsedPrice := ValidatedAmount(itemName, itemPrice);
      if parsedPrice.None? {
        groceryError := AddGroceryError();
      } else {
        AcceptGroceryItem(GroceryItem(id, itemName, parsedPrice.value, false));
      }
    }

    /** The accepted branch of `handleAddGroceryItem`: the item appended, then the cleared form. */
    method AcceptGroceryItem(newItem: GroceryItem)
      modifies this
      ensures unchanged(this`expenses, this`name, this`amount, this`error, this`category, this`expenseType)
      ensures groceryList == old(groceryList) + [newItem]
      ensures itemName == [] && itemPrice == [] && groceryError == []
    {
      groceryList, itemName, itemPrice, groceryError := groceryList + [newItem], [], [], [];
    }

    /** `toggleGroceryItem(id)`: flips `purchased` on the items with that id. */
    method ToggleGroceryItem(id: JsString)
      modifies this
      ensures groceryList == Budget.ToggleGroceryItem(old(groceryList), id)
      ensures GrocerySummary(groceryList).budgetTotal == GrocerySummary(old(groceryList)).budgetTotal
      ensures unchanged(this`expenses, this`name, this`amount, this`error, this`category, this`expenseType)
      ensures unchanged(this`itemName, this`itemPrice, this`groceryError)
    {
      ToggleTwice(groceryList, id);
      groceryList := Budget.ToggleGroceryItem(groceryList, id);
    }

    /** `deleteGroceryItem(id)`: keeps every item whose id differs, in order. */
    method DeleteGroceryItem(id: JsString)
      modifies this
      ensures groceryList == RemoveGroceryItem(old(groceryList), id)
      ensures forall g :: g in groceryList <==> g in old(groceryList) && g.id != id
      ensures unchanged(this`expenses, this`name, this`amount, this`error, this`category, this`expenseType)
      ensures unchanged(this`itemName, this`itemPrice, this`groceryError)
    {
      groceryList := RemoveGroceryItem(groceryList, id);
    }

    /**
     * `handleDownloadICS` up to the download: the calendar text of the
     * grocery list, one clock reading per item, with the DTSTAMP value the
     * page writes, or nothing for an empty list.
     */
    method DownloadIcs(stamps: seq<JsString>, fmt: int -> JsString) returns (ics: Option<JsString>)
      requires |stamps| == |groceryList| && AllIsoTimestamps(stamps)
      ensures groceryList == [] <==> ics.None?
      ensures ics.Some? ==> ics.value == IcsDocument(groceryList, DtStamps(AsWritten, stamps), fmt)
    {
      ics := BuildIcs(groceryList, stamps, fmt, AsWritten);
    }

    /** `handleSaveData` up to the serialisation: the database object as JSON. */
    method SaveData() returns (data: Json)
      ensures CheckImport(Some(data)).Accepted?
      ensures DecodeDatabase(CheckImport(Some(data))) == Some(Database())
    {
      data := ExportJson(Database());
      ExportImportRoundTrip(Database());
    }

    /**
     * The file reader's `onload`, from the parsed file (`None` when the
     * parser threw) and the user's answer to the confirmation: an accepted
     * and confirmed file replaces both lists; anything else leaves them.
     */
    method LoadData(parsed: Option<Json>, confirmed: bool) returns (outcome: ImportOutcome)
      modifies this
      ensures outcome == CheckImport(parsed)
      ensures outcome.Accepted? && confirmed && DecodeDatabase(outcome).Some? ==>
        Database() == DecodeDatabase(outcome).value
      ensures !(outcome.Accepted? && confirmed && DecodeDatabase(outcome).Some?) ==>
        expenses == old(expenses) && groceryList == old(groceryList)
      ensures unchanged(this`name, this`amount, this`error, this`category, this`expenseType)
      ensures unchanged(this`itemName, this`itemPrice, this`groceryError)
    {
      outcome := CheckImport(parsed);
      if outcome.Accepted? && confirmed {
        var db := DecodeDatabase(outcome);
        if db.Some? {
          expenses, groceryList := db.value.expenses, db.value.groceryList;
        }
      }
    }
  }

  /** A client of the page: an accepted expense raises the total of its type by its amount. */
  method AddedExpenseIsCounted(page: BudgetManager, id: JsString, n: nat)
    requires !AllWhiteSpace(page.name) && n > 0
    modifies page
  {
    var before := ExpenseSummary(page.expenses);
    page.amount := DecimalString(n);
    ValidatedDecimal(page.name, n);
    ghost var added := Expense(id, page.name, n, page.category, page.expenseType);
    page.HandleAddExpense(id);
    AddExpenseTotals(old(page.expenses), added);
    assert ExpenseSummary(page.expenses).grandTotal == before.grandTotal + n;
    assert page.name == [] && page.error == [];
  }

  /** A client of the page: a blank name is refused whatever the amount, and only the error message changes. */
  method BlankNameIsRefused(page: BudgetManager)
    requires AllWhiteSpace(page.name)
    modifies page
  {
    ghost var before := page.Database();
    page.HandleAddExpense([]);
    assert page.error == AddExpenseError();
    page.itemName := page.name;
    page.HandleAddGroceryItem([]);
    assert page.groceryError == AddGroceryError();
    assert page.Database() == before;
  }

  /** A client of the page: an accepted item is not bought yet, so the remaining total grows by its price. */
  method AddedItemIsPending(page: BudgetManager, n: nat)
    requires !AllWhiteSpace(page.itemName) && n > 0
    modifies page
  {
    var before := GrocerySummary(page.groceryList);
    page.itemPrice := DecimalString(n);
    ValidatedDecimal(page.itemName, n);
    page.HandleAddGroceryItem([]);
    AddGroceryTotals(old(page.groceryList), page.groceryList[|page.groceryList| - 1]);
    assert GrocerySummary(page.groceryList).remainingTotal == before.remainingTotal + n;
  }

  /** A client of the page: a saved file loaded into a fresh page after confirming gives the same lists. */
  method SaveAndLoad(page: BudgetManager)
  {
    var data := page.SaveData();
    var copy := new BudgetManager();
    var outcome := copy.LoadData(Some(data), true);
    assert copy.Database() == page.Database();
  }
}
