# ELIKIA-PACK: the formatter's edit history and the budget manager, in Dafny

This project models two pieces of in-memory logic from the ELIKIA-PACK tool
pages and proves properties of them.

- **The text formatter** (`FormatterPage.tsx`; the repository has two copies
  with the same logic, one line apart).
  - The edit history is a list of whole-text snapshots plus a cursor.
  - `updateText` pushes a new snapshot and drops the redo tail.
  - `handleUndo` and `handleRedo` move the cursor.
  - The style action replaces the selected range with its transform.
  - `clearAll` pushes the empty text.
  - `TextCounter` counts characters and words.
- **The budget manager** (`pages/BudgetPage.tsx`).
  - Expense and grocery lists, with their memoised totals.
  - The add forms and their validation; an added expense is sorted into
    place by amount.
  - Delete and toggle by id.
  - The totals printed in the budget PDF.
  - The iCalendar file built from the grocery list.
  - The JSON save file, and the shape check applied when a file is loaded.

Modules:

| file | module | contents |
|---|---|---|
| `wrappers.dfy` | `Wrappers` | `Option` |
| `seqs.dfy` | `Seqs` | `Filter` and `Sum` over sequences, with their laws |
| `jstext.dfy` | `JsText` | JavaScript strings as UTF-16 code units: `trim`, `substring`, `split(/\s+/)`, `parseInt` (ECMA-262, section 19.2.5) |
| `history.dfy` | `History` | the edit history as a value, with its undo and redo laws |
| `formatter.dfy` | `Formatter` | the style splice, the counter, and the `Editor` class holding `history` and `historyIndex` |
| `budget.dfy` | `Budget` | the records of `types.ts`, the totals, validation, the sorted add, delete, toggle, and the PDF figures |
| `ics.dfy` | `Ics` | the DTSTAMP value and the VCALENDAR text, with the `forEach` loop as a method |
| `budget_import.dfy` | `BudgetImport` | the saved JSON value, the load-time shape check, and decoding back to records |
| `budget_page.dfy` | `BudgetPage` | the `BudgetManager` class holding the page's state, with one method per event handler |

Conventions of the model:

- **Strings** are sequences of UTF-16 code units, as in JavaScript. Every
  length, offset and comparison counts code units.
- **Integers.** Amounts and prices are `int`. The add forms read them with
  `parseInt`; a loaded file or the browser's storage can hold any JSON number,
  which the model narrows as the **Numbers** line under "Left out" says.
- **Parameters.** These parts of the page are inputs to the model rather than
  modelled code:
  - the style transforms;
  - the currency formatter `formatCurrency`;
  - the ids taken from `new Date().toISOString()`;
  - the clock readings used for DTSTAMP;
  - the value `JSON.parse` returns (`None` when it throws);
  - the answer to the confirmation dialog.
- **Page state.** Each React `useState` of a page is a field of `Editor` or
  `BudgetManager`. Each handler is a method that runs to completion on the
  state of one render.

## Model

| member | source | states |
|---|---|---|
| History.Initial | src/pages/FormatterPage.tsx:33-34 | The history starts as one empty snapshot with the cursor on it; neither undo nor redo is available. |
| History.UpdateText | src/pages/FormatterPage.tsx:40-49 | Text equal to the current snapshot, or a call marked as coming from the history, changes nothing. Any other text becomes current one step further on: the snapshots up to and including the old cursor are kept, redo becomes unavailable and undo available. The cursor stays in range. |
| History.Undo | src/pages/FormatterPage.tsx:51-55 | Moves the cursor back by one exactly when it is above 0, and then redo is available. The snapshots are unchanged and the cursor stays in range. |
| History.Redo | src/pages/FormatterPage.tsx:57-61 | Moves the cursor forward by one exactly when it is below the last snapshot, and then undo is available. The snapshots are unchanged and the cursor stays in range. |
| History.UndoRedoAfterEdit | pages/FormatterPage.tsx:41-62 | After an edit that changed the text, undo shows the previous text, and a following redo gives back exactly the state after the edit. |
| History.EditAfterUndoDiscardsRedo | pages/FormatterPage.tsx:45-56 | An edit made after an undo drops the redo tail: the history ends at the new text and redo is unavailable. |
| History.UndoTimes | src/pages/FormatterPage.tsx:51-55 | Any number of undos in a row keeps the snapshots and a valid cursor. |
| History.RedoTimes | src/pages/FormatterPage.tsx:57-61 | Any number of redos in a row keeps the snapshots and a valid cursor. |
| History.UndoTimesMovesBack | src/pages/FormatterPage.tsx:51-55 | `k` undos with at least `k` steps available move the cursor back by exactly `k`. |
| History.RedoTimesMovesForward | src/pages/FormatterPage.tsx:57-61 | `k` redos with at least `k` steps available move the cursor forward by exactly `k`. |
| History.UndoRedoTimesInverse | pages/FormatterPage.tsx:52-62 | `k` available undos followed by `k` redos give back exactly the starting state. |
| History.Run | src/pages/FormatterPage.tsx:40-61 | Any session of edits, undos and redos keeps the cursor in range and never changes the first snapshot. |
| History.UndoAllRestoresEmpty | pages/FormatterPage.tsx:34-62 | From the initial history, whatever the session, undoing as far as possible shows the empty text. |
| Formatter.FindStyle | src/pages/FormatterPage.tsx:75-76 | Finds the first style with the id: `None` exactly when no style has that id. |
| Formatter.SpliceKeepsOutside | src/pages/FormatterPage.tsx:80-83 | For a selection `start <= end <= length`, the spliced text keeps the text before `start` and from `end` on. In between it holds exactly the transformed text, and its length is adjusted by the difference. |
| Formatter.ApplyStyle | src/pages/FormatterPage.tsx:63-87 | An empty selection gives `NoSelection`, and an unknown id on a non-empty selection gives `UnknownStyle`. Otherwise the result is the splice with the style's transform of the selected text, and the selection to restore runs from `start` to `start + |transformed|`. |
| Formatter.ApplyStyleReplacesSelection | pages/FormatterPage.tsx:79-88 | On a non-empty selection and a known style, the new text is `text[..start] + transformed + text[end..]`. The restored selection spans exactly the transformed text. |
| Formatter.TextCounterCountsRuns | src/pages/FormatterPage.tsx:10-13 | The character count is the length in code units. The word count equals the number of maximal non-white-space runs, and it is 0 exactly when the text is blank. |
| Formatter.Editor.constructor | pages/FormatterPage.tsx:34-35 | A new editor holds the initial history. |
| Formatter.Editor.UpdateText | pages/FormatterPage.tsx:41-50 | Moves the editor's two fields to `History.UpdateText` of the old state, keeping the invariant. |
| Formatter.Editor.HandleUndo | pages/FormatterPage.tsx:52-56 | Moves the editor to `History.Undo` of the old state. |
| Formatter.Editor.HandleRedo | pages/FormatterPage.tsx:58-62 | Moves the editor to `History.Redo` of the old state. |
| Formatter.Editor.HandleStyleClick | pages/FormatterPage.tsx:64-96 | Returns `ApplyStyle` of the current text. A styled result is pushed as an edit; no selection and an unknown style leave the state as it was. |
| Formatter.Editor.ClearAll | src/pages/FormatterPage.tsx:108-112 | Pushes the empty text as an edit, so clearing an already empty text changes nothing. |
| JsText.Trim | src/pages/FormatterPage.tsx:12 | `trim()` gives the empty string exactly when the text is all white space, and otherwise starts and ends with a visible code unit. The result is the slice of the text starting at its first visible code unit, with only white space before it and after it. |
| JsText.Substring | src/pages/FormatterPage.tsx:68 | `substring` is the plain slice when `start <= end <= length` and the swapped slice when `end <= start <= length`. With one offset past the length it is the text from the other offset to the end, and with both past the length it is empty. |
| JsText.SplitIsWeave | pages/FormatterPage.tsx:13 | `split(/\s+/)` gives at least one piece, and no piece contains white space. The pieces, interleaved with some non-empty white-space runs, rebuild the text exactly, in order. Only the first and the last piece can be empty. |
| JsText.SplitUnique | pages/FormatterPage.tsx:13 | Any way of cutting the text into white-space-free words separated by non-empty white-space runs, with only the first and last word allowed to be empty, gives exactly the pieces `split(/\s+/)` returns. Their number and contents are therefore determined by the text. |
| JsText.ParseIntDecimalString | pages/BudgetPage.tsx:57 | `parseInt` reads back every non-negative integer written in decimal. |
| JsText.ParseIntNegated | pages/BudgetPage.tsx:57 | `parseInt` of a minus sign and digits is the negated value. |
| JsText.ParseIntSkipsWhiteSpace | pages/BudgetPage.tsx:100 | `parseInt` ignores leading white space. |
| JsText.ParseIntStopsAtNonDigit | pages/BudgetPage.tsx:100 | `parseInt` stops at the first non-digit after the digits, so "12.5" reads as 12. |
| Budget.ExpenseSummary | pages/BudgetPage.tsx:47-53 | `fixedTotal` sums the `Fixe` amounts and `variableTotal` the `Variable` ones. `grandTotal` is both their sum and the sum of all amounts. The two lists hold exactly the expenses of their type and share the expenses out between them. |
| Budget.ValidatedAmount | pages/BudgetPage.tsx:55-61 | Rejects exactly when the name is blank, the amount is NaN or the amount is not positive. An accepted amount is positive and is what `parseInt` read. |
| Budget.ValidatedDecimal | pages/BudgetPage.tsx:98-103 | With a visible name, a decimal amount is accepted exactly when it is positive, and as that value. |
| Budget.ValidatedRejects | pages/BudgetPage.tsx:57-61 | A negative amount is refused, and so is every amount given with a blank name. |
| Budget.InsertByAmount | pages/BudgetPage.tsx:63 | One step of the sort inserts one element: the result is a permutation of the list plus that element. |
| Budget.InsertKeepsOrder | pages/BudgetPage.tsx:63 | Inserting into a list ordered by amount, largest first, keeps it ordered. |
| Budget.SortByAmountDesc | pages/BudgetPage.tsx:63 | `sort((a, b) => b.amount - a.amount)` gives a list ordered by amount, largest first, that is a permutation of its input. |
| Budget.SortOfSorted | pages/BudgetPage.tsx:63 | A list that is already ordered is left exactly as it is. |
| Budget.SortIdempotent | pages/BudgetPage.tsx:63 | Sorting twice is sorting once. |
| Budget.InsertAfterEqual | pages/BudgetPage.tsx:63 | The reference placement of a new expense adds one element, at the front or after the old head. |
| Budget.SortAfterAppend | pages/BudgetPage.tsx:62-63 | Appending to an ordered list and sorting places the new expense after every expense with an amount at least its own, and keeps the others in their order (the sort is stable). |
| Budget.AddExpense | pages/BudgetPage.tsx:62-63 | The list after an accepted add is ordered by amount, largest first. It is a permutation of the old list plus the new expense, one longer. |
| Budget.AddExpenseTotals | pages/BudgetPage.tsx:47-63 | An add raises the grand total and its own type's total by the new amount and leaves the other type's total unchanged. |
| Budget.RemoveExpense | pages/BudgetPage.tsx:69 | An expense remains exactly when it was there and its id differs. |
| Budget.RemoveExpenseExactly | pages/BudgetPage.tsx:69 | Deletion drops every occurrence of the matching entries and keeps every occurrence of the others. It applies piecewise to concatenations, so the old order is kept, and it changes nothing when no entry has the id. |
| Budget.GrocerySummary | pages/BudgetPage.tsx:92-96 | `budgetTotal` sums all prices and `purchasedTotal` the bought ones. `remainingTotal` is the sum over the items not yet bought. With non-negative prices, `0 <= remainingTotal <= budgetTotal`. |
| Budget.FilteredPricesNonNegative | pages/BudgetPage.tsx:92-96 | With non-negative prices, the bought and pending totals are both non-negative. |
| Budget.AddGroceryTotals | pages/BudgetPage.tsx:92-106 | An added item, not bought yet, raises the planned and remaining totals by its price and leaves the bought total unchanged. |
| Budget.RemoveGroceryItem | pages/BudgetPage.tsx:116 | An item remains exactly when it was there and its id differs. |
| Budget.RemoveGroceryItemExactly | pages/BudgetPage.tsx:116 | The same exactness, order and no-match laws as for expenses. |
| Budget.ToggleGroceryItem | pages/BudgetPage.tsx:112-114 | The same length, and at every position the same id, name and price. The bought flag flips exactly where the id matches. |
| Budget.ToggleTwice | pages/BudgetPage.tsx:112-114 | Toggling the same id twice gives back the list, and a toggle never changes the planned total. |
| Budget.ToggleKeepsPrices | pages/BudgetPage.tsx:112-114 | A toggle keeps the sum of the prices. |
| Budget.BudgetPdfTotals | pages/BudgetPage.tsx:276-306 | No PDF exactly when there are no expenses and the grocery total is 0. **Totals:** the grand total is all amounts plus all prices, and it is the fixed total plus the variable total. **Printed totals:** the fixed total sums the `Fixe` amounts, and the variable total sums the `Variable` amounts plus all prices. **Rows:** all are `Variable`. They start with the variable expenses in list order, and there is one more row exactly when the grocery total is positive: the summary row with the grocery total as amount and the category `Alimentation`. **Footer:** the rows add up to the variable total exactly when the grocery total is not negative. |
| Budget.PdfFooterMatchesRows | pages/BudgetPage.tsx:295-306 | With the positive prices the add form accepts, the variable rows add up to the printed variable total. |
| BudgetImport.CheckImport | pages/BudgetPage.tsx:248-266 | `Unreadable` exactly when parsing threw or gave `null`, because reading a property of `null` throws inside the same `try`. `Accepted` exactly when `expenses` and `groceryList` are both arrays, whose elements it passes on untouched. Every other value is `Invalid`. |
| BudgetImport.NonObjectsInvalid | pages/BudgetPage.tsx:254 | A number, string, boolean or array is refused as invalid, since its two properties are `undefined`. |
| BudgetImport.CategoryOf | types.ts:26 | A recognised category name is the name of the category returned. |
| BudgetImport.TypeOf | types.ts:27 | A recognised type name is the name of the type returned. |
| BudgetImport.ExpenseRoundTrip | types.ts:29-35 | An expense written as a JSON object reads back as the same expense. |
| BudgetImport.GroceryRoundTrip | types.ts:37-42 | A grocery item written as a JSON object reads back as the same item. |
| BudgetImport.ExpensesRoundTrip | types.ts:44-47 | A list of expenses written as a JSON array reads back as the same list. |
| BudgetImport.GroceriesRoundTrip | types.ts:44-47 | A list of items written as a JSON array reads back as the same list. |
| BudgetImport.ExportImportRoundTrip | pages/BudgetPage.tsx:225-266 | A file written by the save button passes the load check and reads back as the database that was saved. |
| Ics.StripSeparatorsPiecewise | pages/BudgetPage.tsx:206 | `replace(/[-:.]/g, '')` leaves no `-`, `:` or `.`. It works piece by piece over concatenation, drops a lone separator and keeps a lone other code unit, so the kept code units stay in their order. It keeps every occurrence of each other code unit, and leaves a text without separators unchanged. |
| Ics.StripIso | pages/BudgetPage.tsx:206 | On an ISO timestamp, the replace leaves its digits and the `T` and `Z`, in order. |
| Ics.DtStampAsWritten | pages/BudgetPage.tsx:206 | The DTSTAMP value as written ends in `Z`. |
| Ics.DtStampAsWrittenMalformed | pages/BudgetPage.tsx:206 | The DTSTAMP value as written is 20 code units long, keeps the milliseconds and ends in `ZZ`, so it is never an RFC 5545 UTC DATE-TIME. |
| Ics.DtStamp | pages/BudgetPage.tsx:206 | The corrected DTSTAMP value is a UTC DATE-TIME (section 3.3.5 of RFC 5545). It is the replace's output cut after the seconds, plus `Z`, and it names the timestamp's year, month, day, hour, minute and second. |
| Ics.DtStamps | pages/BudgetPage.tsx:203-206 | One DTSTAMP value per clock reading, the `k`-th computed from the `k`-th reading, either as the page writes it or corrected. |
| Ics.TodoLines | pages/BudgetPage.tsx:204-208 | An item's block is five lines, opening with BEGIN:VTODO, the second being `DTSTAMP:` followed by the given value. |
| Ics.TodoBlocks | pages/BudgetPage.tsx:203-209 | The blocks of `n` items are `5n` lines. |
| Ics.TodoBlockAt | pages/BudgetPage.tsx:203-209 | Item `k`'s block is lines `5k` to `5k + 4` of the blocks and carries the `k`-th DTSTAMP value, so the blocks follow list order. |
| Ics.IcsLinesStructure | pages/BudgetPage.tsx:196-212 | The file's lines are the three header lines, then each item's five-line block in list order, then END:VCALENDAR, and nothing else. |
| Ics.DtStampLine | pages/BudgetPage.tsx:203-206 | In the file the page builds, item `k`'s DTSTAMP line is 28 code units long, ends in `ZZ`, and its value is not a UTC DATE-TIME. With the corrected value the line is 24 code units long and its value is a UTC DATE-TIME. |
| Ics.IcsDocumentIsJoin | pages/BudgetPage.tsx:198-212 | The file is its lines joined with CRLF: every line ends in CRLF except the closing END:VCALENDAR. |
| Ics.TerminatedThree | pages/BudgetPage.tsx:199-201 | The header string is its three lines, each followed by CRLF. |
| Ics.BuildIcs | pages/BudgetPage.tsx:196-212 | Produces nothing exactly for an empty list. Otherwise it produces exactly `IcsDocument` of the items, with the DTSTAMP values computed from the clock readings in the chosen way. |
| Ics.AppendTodos | pages/BudgetPage.tsx:203-209 | The `forEach` loop: from the CRLF-terminated header, it leaves the CRLF-terminated header and all item blocks in list order, item `k` stamped from the `k`-th reading. |
| Ics.AppendTodo | pages/BudgetPage.tsx:204-208 | The five `+=` of one iteration append the item's five lines, each followed by CRLF, with the DTSTAMP value computed from this iteration's clock reading. |
| Ics.NextBlock | pages/BudgetPage.tsx:203-209 | The blocks of the first `i + 1` items are those of the first `i` followed by item `i`'s. |
| BudgetPage.BudgetManager.constructor | pages/BudgetPage.tsx:27-32 | The page starts with empty lists and an empty form; the category is `Alimentation` and the type `Variable`. |
| BudgetPage.BudgetManager.HandleAddExpense | pages/BudgetPage.tsx:55-67 | A rejected add sets the error message and leaves the list and the form as they were. An accepted add replaces the list by `AddExpense` of the old list and the new expense, ordered and one longer, and clears the name, amount and error. The grocery state stays as it was. |
| BudgetPage.BudgetManager.AcceptExpense | pages/BudgetPage.tsx:62-66 | The list becomes `AddExpense` of the old list and the new expense, and the name, amount and error become empty. |
| BudgetPage.BudgetManager.DeleteExpense | pages/BudgetPage.tsx:69 | The list becomes `RemoveExpense` of the old one, and all other state stays as it was. |
| BudgetPage.BudgetManager.HandleAddGroceryItem | pages/BudgetPage.tsx:98-110 | A rejected add sets the grocery error and leaves the list and the form. An accepted add appends one unbought item at the end and clears the item name, price and error. |
| BudgetPage.BudgetManager.AcceptGroceryItem | pages/BudgetPage.tsx:105-109 | Appends the item and clears the grocery form. |
| BudgetPage.BudgetManager.ToggleGroceryItem | pages/BudgetPage.tsx:112-114 | The list becomes `ToggleGroceryItem` of the old one with the same planned total, and all other state stays as it was. |
| BudgetPage.BudgetManager.DeleteGroceryItem | pages/BudgetPage.tsx:116 | The list becomes `RemoveGroceryItem` of the old one, and all other state stays as it was. |
| BudgetPage.BudgetManager.DownloadIcs | pages/BudgetPage.tsx:196-212 | Produces nothing exactly for an empty grocery list. Otherwise it produces the calendar text of the list with the DTSTAMP values the page writes (`AsWritten`). |
| BudgetPage.BudgetManager.SaveData | pages/BudgetPage.tsx:225-231 | The saved value passes the load check and decodes back to the page's two lists. |
| BudgetPage.BudgetManager.LoadData | pages/BudgetPage.tsx:248-266 | Reports `CheckImport` of the parsed file. Only an accepted and confirmed file replaces both lists, and no form field changes. |

## Left out

- **Rendering and animation.** The JSX rendering, the tabs, the copy button
  and its `copied` flag, the clipboard, focus handling, and the `setTimeout`
  that restores the selection are left out. The selection to restore is
  returned by `ApplyStyle`.
- **Null textarea guard.** The guard `if (!textarea) return` in
  `handleStyleClick`: the model always has a selection.
- **Browser selections.** Selections come from the browser, which guarantees
  `selectionStart <= selectionEnd <= length`. `Substring` still models the
  clamping and swapping of `substring` for other offsets.
- **Storage.** The `localStorage` reads at start-up and the writes on every
  change are I/O.
- **Files and downloads.** The FileReader, Blob, the download links, the file
  name with today's date, `window.confirm` and `alert` are outside the model.
  The answer to the confirmation is a parameter.
- **PDF drawing.** Both PDFs are drawn through jsPDF and autoTable, a library
  loaded from a CDN. The grocery PDF is not modelled at all. Of the budget
  PDF only its figures are modelled, and the `typeof window.jspdf ===
  'undefined'` early return is not.
- **CheckImport**: it starts from the value `JSON.parse` produced. The file's
  text, the parser, and `JSON.stringify`'s indentation are not modelled.
- **BudgetPage.BudgetManager.LoadData**: the page stores whatever the accepted
  arrays hold. The model's lists hold records only, so arrays whose elements
  are not well-typed expense or item objects leave the lists unchanged.
  Nothing validates the elements in the source.
- **Numbers.** JavaScript numbers are doubles. The model's integers are
  unbounded and take no account of precision beyond 2^53. A non-integral
  number in a loaded file does not decode.
- **Transforms and the currency formatter.** The style transforms are defined
  in `constants/styles.ts`, which is not part of this model. They are
  arbitrary functions, and the model takes nothing for granted about the lengths they produce.
  `formatCurrency` uses `toLocaleString('fr-FR')` and is likewise an
  arbitrary function.
- **React batching.** React batches state updates, and `setHistoryIndex(prev
  => …)` uses the functional form. Each handler is modelled as running to
  completion on one render's state, which is how the page uses them.
- **JsText.Bmp**: string literals become code units one character each. This
  covers every literal the model uses, all of which lie in the Basic
  Multilingual Plane; no literal outside it is modelled.
- **JsText.ParseInt**: `parseInt("-0")` is -0 in JavaScript and 0 here; every
  caller rejects both.
- **RFC 5545 details.** Line folding and TEXT escaping are not done by the
  page, and are not modelled. As in the page, the closing END:VCALENDAR has
  no CRLF after it.
- **Clock readings.** DTSTAMP reads the clock once per item. The model takes
  one ISO reading per item as an input, for the years 0 to 9999, where
  `toISOString` has 24 code units.
- **Budget.SortAfterAppend**, **Budget.SortByAmountDesc**, **Budget.AddExpense**: sort stability is proved for an add to a list
  that is already in order, which is every list the add form builds. For lists
  loaded from a file, only order and permutation are proved.

## Findings

| source | as written | input that shows it | evidently intended | confidence | as-written member | corrected member |
|---|---|---|---|---|---|---|
| pages/BudgetPage.tsx:206 | `DTSTAMP:${new Date().toISOString().replace(/[-:.]/g, '')}Z`: the replace keeps the milliseconds and the ISO string's own `Z`, then another `Z` is appended | the clock reading `2024-01-01T12:00:00.000Z` gives `DTSTAMP:20240101T120000000ZZ` | `DTSTAMP:20240101T120000Z`, a UTC DATE-TIME as section 3.3.5 of RFC 5545 requires | high (not executed) | Ics.DtStampAsWritten, Ics.DtStampAsWrittenMalformed | Ics.DtStamp |

`Ics.BuildIcs` takes the DTSTAMP form as a parameter. The page's own handler,
`BudgetPage.BudgetManager.DownloadIcs`, builds with `AsWritten`, exactly as the
source does. `Ics.DtStampLine` shows the effect on the built file: every DTSTAMP
line the page writes ends in `ZZ` and is not a UTC DATE-TIME, while with
`Corrected` (which uses `Ics.DtStamp`) every one is.
