# Pharmacy point of sale: stock and cart arithmetic

This project is a Dafny model of the stock-keeping core of a single-page
pharmacy point-of-sale application (`src/App.jsx`). Each handler is a pure
function over immutable values:

- the point-of-sale cart (`addToCart`, `updateCartQuantity`);
- the sale it commits (`totalAmount`, `processSale`);
- the prescription fill (`fillPrescription`);
- the prescription form (`handleItemChange`, `handleSubmit`);
- the inventory form (`handleChange`, `handleSubmit`, and the add, update and delete writes behind it);
- the dashboard's low-stock and pending-prescription counts.

The inventory is a map from document id to drug record. Quantities and
prices are integers; prices are in minor currency units. The user's three
collections form a `Db`.

A multi-document batch is a sequence of writes applied in order:
- `set` of a sale creates or overwrites the sale;
- `update` of a stock figure or a fill mark needs the document to exist.

The batch commits all or nothing. The store's own reasons for rejecting a
commit, such as the network, security rules or quotas, are one boolean
parameter, `accepted`. `Store.BatchIsLastWriteWins` connects the in-order
application to a reference reading: "every target exists, and each document
ends with the last value written to it". Every commit lemma is stated
against that reference.

Modules:

| file | module | what it holds |
|---|---|---|
| results.dfy | `Results` | `Option` and `Result` |
| records.dfy | `Records` | drugs, cart lines, sales, prescriptions, the `Db` |
| store.dfy | `Store` | writes, atomic batch commit, last-write-wins reference |
| numbers.dfy | `NumberInput` | `parseInt` on decimal text, the digits-only filter |
| pos.dfy | `PointOfSale` | cart editing, totals, the sale and its batch |
| prescriptions.dfy | `Prescriptions` | line edits, submission, logging, filling |
| inventory_form.dfy | `InventoryForm` | field edits, submit checks, add, replace, delete |
| dashboard.dfy | `Dashboard` | the two counts |

The source has two consistency gaps. The model keeps both as written, and
worked lemmas exhibit them:

- **Stale cached stock.** A sale decrements each drug from the stock figure
  copied into the cart line when the line was first added
  (`src/App.jsx:690`, `750`). A later add does not refresh that figure, and
  no re-read happens before the commit. A restock in between can therefore
  be overwritten, and stock can go negative
  (`PointOfSale.StaleStockCanGoNegative`).
- **Repeated drug lines.** A fill checks each line against the same
  snapshot and decrements each from the same snapshot figure. When two lines
  name one drug, the last update wins and the quantities are not summed
  (`Prescriptions.DuplicateLinesLastWriteWins`). With one line per drug, a
  committed fill never leaves negative stock
  (`Prescriptions.DistinctFillKeepsStockNonNegative`).

## Model

| member | source | states |
|---|---|---|
| Store.Commit | src/App.jsx:729-754 | a batch commits exactly when the store accepts and every updated document exists, and then leaves the last-write-wins state; otherwise nothing is written |
| Store.BatchIsLastWriteWins | src/App.jsx:729-754 | applying the writes in order equals "all targets exist, then each document holds the last value written to it" |
| Store.WrittenAppend | src/App.jsx:745-751 | writing one batch after another leaves each document with the later batch's last value for it, else the earlier one's |
| Store.StockUpdatesKeys | src/App.jsx:748-752 | a run of stock updates writes a figure for exactly the drug ids it names |
| Store.StockUpdatesLastWins | src/App.jsx:1221-1226 | each drug ends with the value of the last update that names it |
| Store.StockUpdatesApplicable | src/App.jsx:748-752 | a run of stock updates applies exactly when every named drug exists |
| Store.AllApplicableAppend | src/App.jsx:729-754 | a combined batch applies exactly when both of its parts apply |
| Store.StockUpdatesOnlyStock | src/App.jsx:748-752 | a run of stock updates writes no sale and fills no prescription |
| PointOfSale.FindLine | src/App.jsx:680 | finds the first line for the drug, and finds none exactly when the cart has no line for it |
| PointOfSale.RemoveLines | src/App.jsx:699-701 | the kept lines are exactly the lines for other drugs |
| PointOfSale.RemoveLinesAppend | src/App.jsx:699-701 | removal works piecewise over a split cart, so the kept lines stay in cart order and none is lost |
| PointOfSale.RemoveAbsentIsIdentity | src/App.jsx:699-701 | removing a drug the cart does not hold leaves the cart unchanged |
| PointOfSale.RemoveKeepsIdsUnique | src/App.jsx:699-701 | removal keeps one line per drug |
| PointOfSale.RemoveDropsOneLine | src/App.jsx:699-701 | with one line per drug, removing a held drug drops exactly one line |
| PointOfSale.AddToCart | src/App.jsx:673-692 | out of stock: cart unchanged with an alert; held drug whose next unit exceeds the stock shown now: cart unchanged with an "only N in stock" alert; held drug otherwise: only that drug's line rises by exactly one; new drug: a line of quantity 1 copying the record is appended; one line per drug is preserved |
| PointOfSale.UpdateCartQuantity | src/App.jsx:697-712 | a quantity of 0 or less removes exactly that drug's lines; above the current stock, the line is set to that stock with an alert; otherwise it is set to exactly the new quantity; every other line is untouched and the line never exceeds current stock; a drug missing from the inventory is an error |
| PointOfSale.UpdateKeepsIdsUnique | src/App.jsx:697-712 | a successful quantity change keeps one line per drug |
| PointOfSale.TotalAmount | src/App.jsx:714-716 | the running sum computes the sum over lines of unit price times quantity |
| PointOfSale.TotalIsSumOfLineTotals | src/App.jsx:732-741 | the sale total equals the sum of the recorded line totals |
| PointOfSale.SaleRecordFaithful | src/App.jsx:730-742 | the sale lists the cart's lines in order and of the same number, each with drug id, name, quantity, unit price and their product, stamped with the commit time, with total the sum of the line totals |
| PointOfSale.SaleBatch | src/App.jsx:744-752 | the batch holds the sale record and exactly one stock update per cart line, in cart order, each to the line's cached stock minus its quantity |
| PointOfSale.ProcessSale | src/App.jsx:718-769 | no session or an empty cart writes nothing and keeps the cart; a failed commit keeps cart and store; a committed sale empties the cart and returns the sale with its assigned id |
| PointOfSale.SaleBatchDocuments | src/App.jsx:744-752 | the sale batch writes the sale under its id, a stock figure for exactly the cart's drugs, and no fill |
| PointOfSale.SaleBatchStock | src/App.jsx:748-752 | with one line per drug, each cart drug is written its cached stock minus the line quantity |
| PointOfSale.SaleBatchApplicable | src/App.jsx:748-754 | the sale batch applies exactly when every cart line's drug still exists |
| PointOfSale.SaleSucceedsWhen | src/App.jsx:718-769 | a sale commits exactly when there is a session, the cart has lines, the store accepts and every line's drug still exists |
| PointOfSale.SaleResultIsBatch | src/App.jsx:744-754 | a committed sale leaves exactly the last-write-wins state of its batch |
| PointOfSale.SaleCommitEffect | src/App.jsx:744-754 | a committed sale adds the sale, sets each cart drug to its cached stock minus the quantity, and changes no other drug and no prescription |
| PointOfSale.AddRaisesSingleLine | src/App.jsx:680-687 | adding a held drug within stock raises its line by one and keeps the record copied first |
| PointOfSale.ThreeUnitSale | src/App.jsx:673-769 | stock 5 at 100: three adds make one line of 3; the sale records total 300 and leaves 2 in stock |
| PointOfSale.AddBeyondStockRefused | src/App.jsx:681-684 | with stock 5 and a line already at 5, another add is refused with "only 5 in stock" |
| PointOfSale.StaleStockCanGoNegative | src/App.jsx:686-690 | a line added at stock 1 and raised after a restock to 5 commits stock -1, not 3 |
| NumberInput.KeepDigits | src/App.jsx:347 | the filter keeps only digits, never lengthens the text, and keeps every digit character present |
| NumberInput.KeepDigitsOfDigits | src/App.jsx:347 | digit-only text passes the filter unchanged |
| NumberInput.KeepDigitsAppend | src/App.jsx:347 | filtering a concatenation concatenates the filtered parts |
| NumberInput.ParseFormatRoundTrip | src/App.jsx:1021 | reading back a displayed integer of magnitude at most 2^53 - 1, followed by any non-digit text, gives the integer |
| NumberInput.NoDigitIsNaN | src/App.jsx:1021 | text with no digit reads as NaN |
| NumberInput.DecimalValue | src/App.jsx:1021 | the decimal digits of n read as n |
| Prescriptions.QuantityInputReadsNumber | src/App.jsx:1021 | within 2^53 - 1, the quantity box reads back the whole number it displays, whatever non-numeric text follows; only 0 becomes 1 |
| Prescriptions.QuantityInputWithoutDigits | src/App.jsx:1021 | text with no digit, the empty field included, reads as 1 |
| Prescriptions.HandleItemChange | src/App.jsx:1016-1031 | only the edited line changes, and only the edited field; a quantity above a known drug's stock is clamped to that stock with an alert; with a known drug in stock the quantity ends between 1 and the stock; with an unknown drug it is at least 1; a value within bounds is kept exactly; any other value below 1 becomes exactly 1, with no alert |
| Prescriptions.TypedQuantityKept | src/App.jsx:1016-1031 | typing a whole number within stock, and at most 2^53 - 1, stores exactly that number |
| Prescriptions.EmptyQuantityIsOne | src/App.jsx:1021-1026 | an empty quantity field stores 1 when the line's drug is unknown or has at least 1 in stock |
| Prescriptions.DrugNameOf | src/App.jsx:1056 | the drug's name when the inventory has a non-empty one, else a non-empty fallback |
| Prescriptions.SubmitPrescription | src/App.jsx:1042-1063 | accepted exactly when patient and doctor are given and every line names a drug; the prescription is unfilled, issued now, with the lines in order each with the inventory's name for its drug, or "Unknown" when the inventory has none |
| Prescriptions.AddPrescription | src/App.jsx:1182-1195 | logging succeeds exactly with a session and an accepting store, and inserts only the new prescription |
| Prescriptions.FirstFailing | src/App.jsx:1204-1213 | finds the first line whose drug is missing or short, and finds none exactly when all lines pass |
| Prescriptions.FillBatch | src/App.jsx:1218-1230 | the batch holds exactly one stock update per line, in line order, each to the snapshot stock minus the quantity, then the fill mark |
| Prescriptions.FillPrescription | src/App.jsx:1197-1239 | no session: nothing happens; a missing or short line aborts with the first such line's error and nothing written; success needs every line to pass and the store to accept |
| Prescriptions.FillBatchApplicable | src/App.jsx:1218-1232 | the fill batch applies exactly when the prescription and every line's drug still exist |
| Prescriptions.FillBatchDocuments | src/App.jsx:1218-1230 | the fill batch writes stock for exactly the prescribed drugs, fills only this prescription, and writes no sale |
| Prescriptions.FillBatchStock | src/App.jsx:1221-1226 | each drug ends at the snapshot stock minus the quantity of the last line naming it |
| Prescriptions.FillBatchInventory | src/App.jsx:1221-1226 | a fill batch sets each prescribed drug to the snapshot stock minus the last line's quantity and leaves every other drug as it was |
| Prescriptions.FillBatchRecords | src/App.jsx:1228-1230 | a fill batch marks only its own prescription filled, at the fill time, and leaves the sales alone |
| Prescriptions.FillSucceedsWhen | src/App.jsx:1197-1239 | a fill commits exactly when there is a session, all lines pass, the store accepts, and the prescription and its drugs still exist |
| Prescriptions.FillResultIsBatch | src/App.jsx:1218-1232 | a committed fill leaves exactly the last-write-wins state of its batch |
| Prescriptions.FillEffect | src/App.jsx:1218-1232 | a committed fill marks the prescription filled at the fill time, sets each prescribed drug to the snapshot stock minus the last line's quantity, and changes nothing else |
| Prescriptions.DistinctFillKeepsStockNonNegative | src/App.jsx:1203-1226 | with one line per drug, no prescribed drug ends with negative stock |
| Prescriptions.ShortLineAbortsFill | src/App.jsx:1204-1213 | A with 10 needing 3 and B with 1 needing 2: the fill fails naming B, 2 required, 1 available |
| Prescriptions.DuplicateLinesLastWriteWins | src/App.jsx:1221-1226 | two lines of 6 against stock 10 both pass and the drug ends at 4 |
| InventoryForm.BatchNumberInput | src/App.jsx:345-353 | the batch number keeps only digits and takes the edit only when at most 5 digits remain, else keeps the previous value; a well-formed value stays well-formed |
| InventoryForm.NonDigitKeystrokeIgnored | src/App.jsx:345-353 | typing a non-digit leaves the batch number unchanged |
| InventoryForm.DigitKeystroke | src/App.jsx:345-353 | a digit is appended below 5 digits and ignored at 5 |
| InventoryForm.HandleChange | src/App.jsx:342-360 | only the edited field changes: text fields take the value, the batch number goes through its filter, number fields take the number or 0 |
| InventoryForm.HandleSubmit | src/App.jsx:362-380 | the form passes exactly when quantity and price are not negative and name, batch number and expiry date are given; the negative check is reported first; a passing form is submitted unchanged |
| InventoryForm.DeleteUndoesAdd | src/App.jsx:497-546 | deleting a drug just added under a fresh id gives back the store as it was before the add |
| InventoryForm.UpdateDrugFrame | src/App.jsx:512-528 | replacing an existing drug keeps the set of drugs, every other record, the sales and the prescriptions; replacing it again with its previous record restores the store |
| InventoryForm.DeleteDrug | src/App.jsx:530-546 | removes exactly that record and keeps sales and prescriptions |
| InventoryForm.SaveDrugForm | src/App.jsx:362-380 | an invalid form writes nothing; a valid one is inserted or replaces the edited record, given a session and an accepting store |
| InventoryForm.FormWritesKeepNonNegative | src/App.jsx:362-380 | saving through the form and deleting never introduce a negative quantity or price |
| Dashboard.LowStockCount | src/App.jsx:217-220 | the low-stock count never exceeds the number of drugs |
| Dashboard.PendingCount | src/App.jsx:232-235 | the pending count never exceeds the number of prescriptions |
| Dashboard.NoLowStockWhenZero | src/App.jsx:217-220 | the low-stock count is 0 exactly when every drug has at least 20 in stock |
| Dashboard.NoPendingWhenZero | src/App.jsx:232-235 | the pending count is 0 exactly when every prescription is filled |
| Dashboard.FillLowersPending | src/App.jsx:232-235 | filling a pending prescription lowers the pending count by one |
| Dashboard.SubmitRaisesPending | src/App.jsx:1042-1063 | a prescription that passes the form checks and is logged under a fresh id raises the pending count by one |
| Dashboard.LogRaisesPending | src/App.jsx:232-235 | logging a new unfilled prescription raises the pending count by one |

## Left out

- Firebase initialisation, sign-in and the authentication listener are left out. They are external services. A missing session is modelled as an empty user id.
- The live collection subscriptions, the loading counter and the sort of sales by timestamp are left out. They are asynchronous plumbing.
- The race between a check on a snapshot and a commit is not modelled. Snapshot and store are separate parameters of a fill, so any interleaving is a choice of arguments.
- The store's reasons for refusing a commit are the `accepted` parameter. The store-assigned ids are parameters too.
- Collection paths are not modelled: every collection belongs to the signed-in user.
- Clock readings (`Timestamp.now()`) are a `now` parameter.
- The expired-items count and the conversion of the expiry date to a timestamp on submit are left out. Both need a calendar and the clock, so the expiry date stays a string.
- The total stock value on the dashboard is left out. It multiplies floating-point prices.
- `formatDate` and `formatCurrency` are left out. They depend on the locale.
- Rendering is left out: modals, alerts and their timer, the receipt, printing, navigation and the search filter.
- Prices are whole minor units. `InventoryForm.NumberOrZero` takes the already-read number, with `None` for NaN, instead of modelling `parseFloat` on fractional text.
- PointOfSale.UpdateCartQuantity takes the quantity as an integer. The source reads it with `parseInt` (`src/App.jsx:841`), and an emptied field gives NaN. Every comparison with NaN is false, so the line would be set to NaN. That case is not modelled.
- NumberInput.ParseInt covers decimal text only. It leaves out the `0x` radix prefix and Unicode space separators beyond the listed white-space characters. A number input never produces either.
- NumberInput.ParseInt returns the exact integer. JavaScript `parseInt` returns a double: above 2^53 it rounds to the nearest representable value, and text beyond the largest double reads as `Infinity`. The model does not represent that rounding.
- NumberInput.ParseFormatRoundTrip is stated only for integers of magnitude at most 2^53 - 1, the range in which the source reads a typed integer back exactly.
- Prescriptions.QuantityInputReadsNumber is stated only for the same range, for the same reason.
- Prescriptions.TypedQuantityKept is stated only for quantities up to 2^53 - 1, for the same reason.
- Adding and removing prescription form lines (`addItem`, `removeItem`) are left out. They are list plumbing with no stock rule.
