/**
 * Saving and loading the budget: the value the page writes with
 * JSON.stringify, and the shape check it applies to what JSON.parse gives
 * back before offering to replace its data. The file's text, the parser
 * and the confirmation dialog sit outside: the check starts from the parsed
 * value, or from `None` when the parser threw.
 */
module BudgetImport {
  import opened Wrappers
  import opened JsText
  import opened Budget

  /** A value JSON.parse can return; numbers are JavaScript numbers, taken here as reals. */
  datatype Json =
    | JNull
    | JBool(b: bool)
    | JNumber(n: real)
    | JString(s: JsString)
    | JArray(elems: seq<Json>)
    | JObject(members: map<JsString, Json>)

  function ExpensesKey(): JsString { Bmp("expenses") }

  function GroceryListKey(): JsString { Bmp("groceryList") }

  // The field names of the two records; no two of equal length except "name" and "type".
  function IdKey(): JsString { Bmp("id") }
  function NameKey(): JsString { Bmp("name") }
  function AmountKey(): JsString { Bmp("amount") }
  function CategoryKey(): JsString { Bmp("category") }
  function TypeKey(): JsString { Bmp("type") }
  function PriceKey(): JsString { Bmp("price") }
  function PurchasedKey(): JsString { Bmp("purchased") }

  /** Where the load handler ends up. */
  datatype ImportOutcome =
    | Unreadable   // the parser threw, or reading a property of the result did
    | Invalid      // parsed, but the two arrays are not both there
    | Accepted(expenses: seq<Json>, groceryList: seq<Json>)

  /** The parsed value's property `key`: `None` stands for `undefined`. */
  function Property(j: Json, key: JsString): Option<Json>
  {
    match j
    case JObject(m) => if key in m then Some(m[key]) else None
    case _ => None
  }

  predicate IsArray(v: Option<Json>)
  {
    v.Some? && v.value.JArray?
  }

  /**
   * The check `Array.isArray(data.expenses) && Array.isArray(data.groceryList)`
   * wrapped in the handler's try: reading a property of `null` throws like
   * the parser does; any other value passes exactly when both properties are
   * arrays, whose elements are taken as they are.
   */
  function CheckImport(parsed: Option<Json>): (r: ImportOutcome)
    ensures r.Unreadable? <==> parsed == None || parsed == Some(JNull)
    ensures r.Accepted? <==>
      parsed.Some? && IsArray(Property(parsed.value, ExpensesKey())) && IsArray(Property(parsed.value, GroceryListKey()))
    ensures r.Accepted? ==>
      && parsed.value.JObject?
      && r.expenses == parsed.value.members[ExpensesKey()].elems
      && r.groceryList == parsed.value.members[GroceryListKey()].elems
  {
    if parsed.None? || parsed.value.JNull? then Unreadable
    else
      var expenses := Property(parsed.value, ExpensesKey());
      var groceryList := Property(parsed.value, GroceryListKey());
      if IsArray(expenses) && IsArray(groceryList) then Accepted(expenses.value.elems, groceryList.value.elems)
      else Invalid
  }

  // --------------------------------------------------------------- encoding

  function CategoryName(c: ExpenseCategory): (s: JsString)
  {
    match c
    case Logement => Bmp("Logement")
    case Transport => Bmp("Transport")
    case Alimentation => Bmp("Alimentation")
    case Abonnements => Bmp("Abonnements")
    case Loisirs => Bmp("Loisirs")
    case Autre => Bmp("Autre")
  }

  function TypeName(t: ExpenseType): (s: JsString)
  {
    match t
    case Fixe => Bmp("Fixe")
    case Variable => Bmp("Variable")
  }

  /** The JSON object of an expense, with the field names of the record. */
  function ExpenseJson(e: Expense): Json
  {
    JObject(map[
      IdKey() := JString(e.id),
      NameKey() := JString(e.name),
      AmountKey() := JNumber(e.amount as real),
      CategoryKey() := JString(CategoryName(e.category)),
      TypeKey() := JString(TypeName(e.expenseType))])
  }

  function GroceryJson(g: GroceryItem): Json
  {
    JObject(map[
      IdKey() := JString(g.id),
      NameKey() := JString(g.name),
      PriceKey() := JNumber(g.price as real),
      PurchasedKey() := JBool(g.purchased)])
  }

  /** What `handleSaveData` serialises: the database object. */
  function ExportJson(db: BudgetDatabase): Json
  {
    JObject(map[
      ExpensesKey() := JArray(ExpenseArray(db.expenses)),
      GroceryListKey() := JArray(GroceryArray(db.groceryList))])
  }

  function ExpenseArray(es: seq<Expense>): (js: seq<Json>)
    ensures |js| == |es|
  {
    seq(|es|, i requires 0 <= i < |es| => ExpenseJson(es[i]))
  }

  function GroceryArray(gs: seq<GroceryItem>): (js: seq<Json>)
    ensures |js| == |gs|
  {
    seq(|gs|, i requires 0 <= i < |gs| => GroceryJson(gs[i]))
  }

  // --------------------------------------------------------------- decoding

  function CategoryOf(s: JsString): (r: Option<ExpenseCategory>)
    ensures r.Some? ==> CategoryName(r.value) == s
  {
    if s == CategoryName(Logement) then Some(Logement)
    else if s == CategoryName(Transport) then Some(Transport)
    else if s == CategoryName(Alimentation) then Some(Alimentation)
    else if s == CategoryName(Abonnements) then Some(Abonnements)
    else if s == CategoryName(Loisirs) then Some(Loisirs)
    else if s == CategoryName(Autre) then Some(Autre)
    else None
  }

  function TypeOf(s: JsString): (r: Option<ExpenseType>)
    ensures r.Some? ==> TypeName(r.value) == s
  {
    if s == TypeName(Fixe) then Some(Fixe) else if s == TypeName(Variable) then Some(Variable) else None
  }

  /** The six category names are distinct (they differ in length), so each one reads back as itself. */
  lemma CategoryRoundTrip(c: ExpenseCategory)
    ensures CategoryOf(CategoryName(c)) == Some(c)
  {
  }

  lemma TypeRoundTrip(t: ExpenseType)
    ensures TypeOf(TypeName(t)) == Some(t)
  {
  }

  function StringField(j: Json, key: JsString): Option<JsString>
  {
    match Property(j, key)
    case Some(JString(s)) => Some(s)
    case _ => None
  }

  /** A number field holding an integer, as every amount and price the page writes does. */
  function IntField(j: Json, key: JsString): Option<int>
  {
    match Property(j, key)
    case Some(JNumber(n)) => if n == n.Floor as real then Some(n.Floor) else None
    case _ => None
  }

  function BoolField(j: Json, key: JsString): Option<bool>
  {
    match Property(j, key)
    case Some(JBool(b)) => Some(b)
    case _ => None
  }

  /** The expense an element stands for, when it has every field with the right type and value. */
  function DecodeExpense(j: Json): Option<Expense>
  {
    var id, name, amount := StringField(j, IdKey()), StringField(j, NameKey()), IntField(j, AmountKey());
    var category, expenseType := StringField(j, CategoryKey()), StringField(j, TypeKey());
    if id.None? || name.None? || amount.None? || category.None? || expenseType.None? then None
    else match (CategoryOf(category.value), TypeOf(expenseType.value))
      case (Some(c), Some(t)) => Some(Expense(id.value, name.value, amount.value, c, t))
      case _ => None
  }

  function DecodeGrocery(j: Json): Option<GroceryItem>
  {
    var id, name, price, purchased :=
      StringField(j, IdKey()), StringField(j, NameKey()), IntField(j, PriceKey()), BoolField(j, PurchasedKey());
    if id.None? || name.None? || price.None? || purchased.None? then None
    else Some(GroceryItem(id.value, name.value, price.value, purchased.value))
  }

  function DecodeExpenses(js: seq<Json>): (r: Option<seq<Expense>>)
    ensures r.Some? ==> |r.value| == |js|
  {
    if js == [] then Some([])
    else match (DecodeExpense(js[0]), DecodeExpenses(js[1..]))
      case (Some(e), Some(rest)) => Some([e] + rest)
      case _ => None
  }

  function DecodeGroceries(js: seq<Json>): (r: Option<seq<GroceryItem>>)
    ensures r.Some? ==> |r.value| == |js|
  {
    if js == [] then Some([])
    else match (DecodeGrocery(js[0]), DecodeGroceries(js[1..]))
      case (Some(g), Some(rest)) => Some([g] + rest)
      case _ => None
  }

  /** The check's arrays as a database, when all their elements are records. */
  function DecodeDatabase(outcome: ImportOutcome): Option<BudgetDatabase>
  {
    if !outcome.Accepted? then None
    else match (DecodeExpenses(outcome.expenses), DecodeGroceries(outcome.groceryList))
      case (Some(es), Some(gs)) => Some(BudgetDatabase(es, gs))
      case _ => None
  }

  // ------------------------------------------------------------- round trip

  lemma ExpenseRoundTrip(e: Expense)
    ensures DecodeExpense(ExpenseJson(e)) == Some(e)
  {
    var m := ExpenseJson(e).members;
    assert NameKey() != TypeKey() by { assert NameKey()[0] != TypeKey()[0]; }
    assert m[NameKey()] == JString(e.name) && m[TypeKey()] == JString(TypeName(e.expenseType));
    CategoryRoundTrip(e.category);
    TypeRoundTrip(e.expenseType);
  }

  lemma GroceryRoundTrip(g: GroceryItem)
    ensures DecodeGrocery(GroceryJson(g)) == Some(g)
  {
  }

  lemma {:induction false} ExpensesRoundTrip(es: seq<Expense>)
    ensures DecodeExpenses(ExpenseArray(es)) == Some(es)
  {
    var js := ExpenseArray(es);
    if es != [] {
      ExpenseRoundTrip(es[0]);
      assert js[0] == ExpenseJson(es[0]);
      assert js[1..] == ExpenseArray(es[1..]);
      ExpensesRoundTrip(es[1..]);
      assert es == [es[0]] + es[1..];
    }
  }

  lemma {:induction false} GroceriesRoundTrip(gs: seq<GroceryItem>)
    ensures DecodeGroceries(GroceryArray(gs)) == Some(gs)
  {
    var js := GroceryArray(gs);
    if gs != [] {
      GroceryRoundTrip(gs[0]);
      assert js[0] == GroceryJson(gs[0]);
      assert js[1..] == GroceryArray(gs[1..]);
      GroceriesRoundTrip(gs[1..]);
      assert gs == [gs[0]] + gs[1..];
    }
  }

  /** A saved file passes the load check and reads back as the database that was saved. */
  lemma ExportImportRoundTrip(db: BudgetDatabase)
    ensures CheckImport(Some(ExportJson(db))).Accepted?
    ensures DecodeDatabase(CheckImport(Some(ExportJson(db)))) == Some(db)
  {
    var m := ExportJson(db).members;
    assert ExpensesKey() != GroceryListKey() by { assert |ExpensesKey()| != |GroceryListKey()|; }
    assert m[ExpensesKey()] == JArray(ExpenseArray(db.expenses));
    assert m[GroceryListKey()] == JArray(GroceryArray(db.groceryList));
    ExpensesRoundTrip(db.expenses);
    GroceriesRoundTrip(db.groceryList);
  }

  /** A value that is neither `null` nor an object has no properties, so it is refused as invalid. */
  lemma NonObjectsInvalid(j: Json)
    requires j != JNull && !j.JObject?
    ensures CheckImport(Some(j)) == Invalid
  {
  }
}
