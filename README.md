# Jewellery ERP transaction logic in Dafny

This project models the business logic of five screens of a jewellery shop's
ERP. Rendering and remote calls are stripped away.

- **Advance booking.** Gold items are ordered against a booking total, which
  is either recomputed from the items (AUTO) or pinned by hand (LOCKED). An
  advance is paid and the amount due is derived from it. Old gold handed in
  by the customer is recorded as entries. A submit gate checks the form. On
  saving, the old-gold entries are reconciled with the rows of the bill.
- **Gold exchange.** The standalone old-gold ledger: validated create and
  update, delete, a search and date filter over the list, and the sums over
  the filtered list.
- **Purchase billing.** The "pink slip" item list, 9% CGST plus 9% SGST, the
  purity-to-rate table, and the daily bill number `AM-PURCHASE-YYYYMMDD-NNNN`.
- **Inventory.** Required fields; create (prepend), update and delete by id;
  the "Others - <custom>" category and its decoding; the metal-to-purity
  table; the name and barcode search.
- **Invoice print.** Metal display names, the rate lines for the distinct
  metals of a bill in first-seen order, and the payment total.

Modules:

| file | module | what it holds |
|---|---|---|
| `basics.dfy` | `Basics` | `Option`, sums, `Filter` and subsequences |
| `text.dfy` | `Text` | JavaScript's `trim`, `includes` and `startsWith` over `seq<char>`, and an ASCII case fold standing for `toLowerCase` and `toUpperCase` |
| `jsnum.dfy` | `JsNum` | JavaScript's `parseInt`, `parseFloat` (decimal forms), `x \|\| 0`, `String(n)`, `padStart` and round-to-2 |
| `notes.dfy` | `Notes` | the `Description: … \| HSN Code: …` notes format, shared by the booking form and the exchange page |
| `exchange_store.dfy` | `ExchangeStore` | the `old_gold_exchanges` table: a map from row id to row, inside a `Store` class that hands out ids |
| `reconcile.dfy` | `Reconcile` | the save loop and the delete step of the booking's old-gold entries |
| `advance_booking.dfy` | `AdvanceBooking` | the booking form as a `BookingForm` class |
| `gold_exchange.dfy` | `GoldExchange` | the exchange page |
| `purchase_billing.dfy` | `PurchaseBilling` | the purchase slip as a `PurchaseSlip` class |
| `inventory.dfy` | `Inventory` | the inventory page as an `InventoryPage` class |
| `invoice_print.dfy` | `InvoicePrint` | the invoice helpers |

Modelling choices:

- Money and weights are `real`, so arithmetic is exact. JavaScript's NaN is
  not a value: `parseFloat` returns `Option<real>`, and `parseFloat(x) || 0`
  is `ParseFloatOr0`.
- Component state that handlers update step by step is a class with
  `modifies` clauses. React effects that recompute derived state (the amount
  due, the old-gold draft's value) are modelled as already settled after
  every handler. `BookingForm.Valid()` states this.
- `Date.now()`, "today", fresh row ids and the day's rates are parameters.

## Model

| member | source | states |
|---|---|---|
| Notes.FindFieldFollowsKey | components/advance-booking/advance-booking-form.tsx:199-206 | what the `/Key:\s*([^\|]+)/` search captures is the text after some occurrence of the key, up to the next '\|' |
| Notes.ParseNotesOfNothing | app/dashboard/gold-exchange/page.tsx:365-367 | absent or empty notes read as ("Old Gold Exchange", "7113") |
| Notes.ParseNotesMissingLabels | app/dashboard/gold-exchange/page.tsx:368-380 | notes that never mention "Description:" keep the default particulars; notes that never mention "HSN Code:" keep the default code |
| Notes.ParseNotesReadsAfterLabel | components/advance-booking/advance-booking-form.tsx:195-206 | each field read is either its default or the trimmed text after an occurrence of its label, up to '\|' or the end |
| Notes.ParseEncodeRoundTrip | components/advance-booking/advance-booking-form.tsx:968-971 | parsing the encoded notes gives back trimmed, bar-free particulars and HSN code; an empty field comes back as its default |
| Notes.EncodeNotesIsNullOnlyWhenEmpty | app/dashboard/gold-exchange/page.tsx:248-251 | the builder gives null exactly when both fields are empty; otherwise it gives `Description: p` alone, `HSN Code: h` alone, or `Description: p \| HSN Code: h` when both are present |
| ExchangeStore.Apply | app/dashboard/gold-exchange/page.tsx:255-266 | an update writes the listed columns and keeps `bill_id`; `hsn_code` changes only when written |
| ExchangeStore.UpdateRow | app/dashboard/gold-exchange/page.tsx:255-266 | `update(...).eq('id', id)` patches only that row; a missing id changes nothing; the ids stay the same |
| ExchangeStore.DeleteRows | components/advance-booking/advance-booking-form.tsx:959-964 | `delete().in('id', ids)` removes exactly the listed ids and leaves the other rows unchanged |
| ExchangeStore.Store.Insert | app/dashboard/gold-exchange/page.tsx:277-287 | an insert stores the row under a fresh id, which it returns, and leaves the other rows unchanged |
| ExchangeStore.Store.Update | app/dashboard/gold-exchange/page.tsx:255-266 | the table becomes `UpdateRow` of the old table |
| ExchangeStore.Store.Delete | app/dashboard/gold-exchange/page.tsx:315-319 | the table becomes `DeleteRows` of the old table |
| Reconcile.DraftIds | components/advance-booking/advance-booking-form.tsx:953-955 | `currentIds` holds exactly the ids of the draft entries whose id parses as an integer |
| Reconcile.ExistingIds | components/advance-booking/advance-booking-form.tsx:947-952 | the existing ids are exactly the `String(id)` of the bill's rows |
| Reconcile.StaleIdsExactly | components/advance-booking/advance-booking-form.tsx:952-964 | a row is deleted exactly when it belongs to the bill and no numeric draft id names it |
| Reconcile.ListedRowsSurvive | components/advance-booking/advance-booking-form.tsx:953-964 | a row that a draft entry names by its id is never deleted |
| Reconcile.SaveEntries | components/advance-booking/advance-booking-form.tsx:967-998 | the loop's effect on the table is `UpsertAll`: entry by entry, an update of the target row or an insert into the bill |
| Reconcile.ReconcileOnEdit | components/advance-booking/advance-booking-form.tsx:941-1002 | the edit path deletes the stale rows and then runs the save loop against the ids read before the delete |
| Reconcile.SaveOnCreate | components/advance-booking/advance-booking-form.tsx:1079-1128 | the create path runs the same save loop with no existing ids and deletes nothing |
| Reconcile.InsertCount | components/advance-booking/advance-booking-form.tsx:973-997 | no more entries are inserted than there are entries |
| Reconcile.UpsertAllCounts | components/advance-booking/advance-booking-form.tsx:973-997 | the id counter advances by exactly the number of inserted entries; afterwards the rows are the old ones plus the fresh ids, all below the counter |
| Reconcile.UpsertAllFrame | components/advance-booking/advance-booking-form.tsx:973-997 | a row that no entry targets keeps its contents, and every row the loop adds belongs to the bill |
| Reconcile.PersistedIdRecordsEveryEntry | components/advance-booking/advance-booking-form.tsx:973-997 | with the intended id rule, every entry is recorded in the row assigned to it |
| Reconcile.InsertCountGrows | components/advance-booking/advance-booking-form.tsx:973-997 | an inserted entry is counted among the inserts of every longer prefix of the draft |
| Reconcile.InsertCountCovers | components/advance-booking/advance-booking-form.tsx:973-997 | the inserts of the whole draft include those before an entry and that entry itself |
| Reconcile.FreshIdIsSlot | components/advance-booking/advance-booking-form.tsx:973-997 | every id the loop hands out is the id of some inserted entry |
| Reconcile.SlotOfPrefix | components/advance-booking/advance-booking-form.tsx:973-997 | an entry's row does not depend on the entries after it |
| Reconcile.SlotsDistinct | components/advance-booking/advance-booking-form.tsx:973-997 | with the intended rule and distinct ids, no two entries are written to the same row |
| Reconcile.SlotsStep | components/advance-booking/advance-booking-form.tsx:973-997 | the rows of the first n entries are those of the first n - 1 plus the row of entry n |
| Reconcile.SlotsCount | components/advance-booking/advance-booking-form.tsx:973-997 | with the intended rule, n entries are written to n different rows |
| Reconcile.PersistedIdRowsOfBill | components/advance-booking/advance-booking-form.tsx:973-997 | with the intended rule, the bill's rows after the loop are its rows before it plus the rows the entries went to, and nothing else |
| Reconcile.SlotsHoldEntries | components/advance-booking/advance-booking-form.tsx:973-997 | with the intended rule, each row an entry went to records one of the entries |
| Reconcile.EveryEntryStored | components/advance-booking/advance-booking-form.tsx:973-997 | with the intended rule, every entry is recorded in some row of the bill |
| Reconcile.OneRowPerEntry | components/advance-booking/advance-booking-form.tsx:973-997 | with the intended rule, when the draft names every row the bill still has, the bill ends with exactly one row per entry, each recording an entry |
| Reconcile.KeptRowsAreSlots | components/advance-booking/advance-booking-form.tsx:947-997 | after the delete, every row the bill keeps is named by an entry, which the intended rule writes over it |
| Reconcile.EditNamesKeptRows | components/advance-booking/advance-booking-form.tsx:947-997 | an entry whose id is one of the bill's ids names a row of the bill that the delete kept |
| Reconcile.EditRecordsEveryEntry | components/advance-booking/advance-booking-form.tsx:941-998 | with the intended rule, after an edit every draft entry has a row of the bill that records it, every row of the bill records an entry, and the bill has exactly as many rows as the draft has entries |
| Reconcile.CreateSlotsAreFresh | components/advance-booking/advance-booking-form.tsx:1083-1124 | on create no entry names a row, so every entry gets an id the table did not have |
| Reconcile.CreateStoresEveryEntry | components/advance-booking/advance-booking-form.tsx:1083-1124 | on create every entry is recorded in a new row of the bill |
| Reconcile.CreateAddsOneRowPerEntry | components/advance-booking/advance-booking-form.tsx:1083-1124 | on create the bill gains exactly one row per entry, and each row it gains records an entry |
| Reconcile.CreateRecordsEveryEntry | components/advance-booking/advance-booking-form.tsx:1083-1124 | with the intended rule, a new booking stores every entry in a new row of the bill, every new row of the bill records an entry, and the bill gains exactly as many rows as there are entries |
| Reconcile.NoInserts | components/advance-booking/advance-booking-form.tsx:973-997 | when every entry is written over a row, the loop inserts nothing |
| Reconcile.UpdatesKeepRows | components/advance-booking/advance-booking-form.tsx:973-997 | when every entry is written over a row, the id counter does not move, no row is added, and the bill keeps the same rows |
| Reconcile.LoadedDraftListsEveryRow | components/advance-booking/advance-booking-form.tsx:947-964 | a draft that names every row of the bill by its id leaves nothing to delete |
| Reconcile.LoadedDraftUpdatesOnly | components/advance-booking/advance-booking-form.tsx:967-997 | under either id rule, every entry of a draft as loaded is written over its row |
| Reconcile.ReloadedDraftKeepsRows | components/advance-booking/advance-booking-form.tsx:941-998 | under either id rule, saving a draft exactly as it was loaded deletes nothing, inserts nothing and keeps the bill's rows |
| Reconcile.NumericIdDropsNewEntry | components/advance-booking/advance-booking-form.tsx:695 | as written, an entry with the temporary id `String(Date.now())` is sent as an update of a row that does not exist, which leaves the table unchanged |
| Reconcile.NewBookingLosesOldGold | components/advance-booking/advance-booking-form.tsx:1091-1123 | as written, a new booking with one added entry ends with no old-gold row; with the intended rule it has one |
| Reconcile.NewBookingLosesOldGoldExample | components/advance-booking/advance-booking-form.tsx:1091-1123 | the same, for an entry added at `Date.now() == 1760000000000` |
| AdvanceBooking.LineTotals | components/advance-booking/advance-booking-form.tsx:623 | the line totals of the items, one per item, in order |
| AdvanceBooking.SumLineTotalsAppend | components/advance-booking/advance-booking-form.tsx:623 | the sum over the items plus the new one is the old sum plus the new line total |
| AdvanceBooking.SumLineTotalsRemove | components/advance-booking/advance-booking-form.tsx:652-654 | removing an item lowers the sum by exactly that item's line total |
| AdvanceBooking.AmountDue | components/advance-booking/advance-booking-form.tsx:418-424 | the amount due is never negative, is at least total minus advance, and is either 0 or total minus advance |
| AdvanceBooking.CheckItemDraft | components/advance-booking/advance-booking-form.tsx:563-591 | a draft is accepted exactly when the name, the weight (> 0) and the purity are present; a missing name is reported first |
| AdvanceBooking.NewGoldItem | components/advance-booking/advance-booking-form.tsx:601-620 | `line_total = weight * rate + making`, `sl_no = count + 1`, the day's rate of the metal (gold by default), HSN 711319 |
| AdvanceBooking.RemoveAt | components/advance-booking/advance-booking-form.tsx:653 | removing at a valid position drops exactly that item and keeps the others in order; any other position changes nothing |
| AdvanceBooking.SettleDraft | components/advance-booking/advance-booking-form.tsx:665-682 | the old-gold effect: weight and rate read from the text, a missing rate falls back to the gold rate, value = round2(weight × rate), and the gold rate is filled in when a weight is entered without a rate |
| AdvanceBooking.SettleDraftIdempotent | components/advance-booking/advance-booking-form.tsx:665-682 | running the effect a second time changes nothing |
| AdvanceBooking.EntryOfDraft | components/advance-booking/advance-booking-form.tsx:694-704 | the entry carries the draft's values, with an empty HSN code replaced by "7113" |
| AdvanceBooking.FindById | components/advance-booking/advance-booking-form.tsx:730 | `find` gives the first entry with that id, or none when there is no such entry |
| AdvanceBooking.ReplaceById | components/advance-booking/advance-booking-form.tsx:758-775 | an update rewrites only the entries with the edited id; the others are unchanged |
| AdvanceBooking.WithoutId | components/advance-booking/advance-booking-form.tsx:810-814 | a delete keeps exactly the entries with another id |
| AdvanceBooking.WithoutIdKeepsOrder | components/advance-booking/advance-booking-form.tsx:813 | a delete keeps the remaining entries in their order |
| AdvanceBooking.FirstBadItem | components/advance-booking/advance-booking-form.tsx:1042-1055 | the create path finds no fault exactly when every item has a name and a positive weight, rate and line total; otherwise it names the first faulty item |
| AdvanceBooking.AddedItemSavable | components/advance-booking/advance-booking-form.tsx:601-620 | an item added through the form passes the create path's checks exactly when its metal has a positive rate and its line total is positive |
| AdvanceBooking.ValidateFormAccepts | components/advance-booking/advance-booking-form.tsx:821-914 | the gate passes exactly when there is a customer, total > 0, at least one item, 0 < advance ≤ total, and a delivery date |
| AdvanceBooking.ValidateFormRedundantChecks | components/advance-booking/advance-booking-form.tsx:876-893 | the locked-total check and the negative-advance check never fire, because earlier checks cover them |
| AdvanceBooking.BookingForm.New | components/advance-booking/advance-booking-form.tsx:243 | a new booking starts empty and in AUTO mode |
| AdvanceBooking.BookingForm.Edit | components/advance-booking/advance-booking-form.tsx:144-147 | an existing booking starts LOCKED, with its stored total and advance |
| AdvanceBooking.BookingForm.TypeTotal | components/advance-booking/advance-booking-form.tsx:427-435 | a manual total sets the total from `parseFloat(text) \|\| 0` and locks it; text the input refuses changes nothing |
| AdvanceBooking.BookingForm.TypeAdvance | components/advance-booking/advance-booking-form.tsx:438-444 | typing an advance sets it and leaves the lock alone; the amount due follows |
| AdvanceBooking.BookingForm.Unlock | components/advance-booking/advance-booking-form.tsx:1817-1824 | Unlock clears the lock and sets the total to the sum of the line totals |
| AdvanceBooking.BookingForm.SelectItemMetal | components/advance-booking/advance-booking-form.tsx:1411-1431 | choosing a metal sets its usual purity |
| AdvanceBooking.BookingForm.AddGoldItem | components/advance-booking/advance-booking-form.tsx:563-650 | a valid draft appends one item and clears the draft; the total becomes the sum of the line totals unless LOCKED; a refused draft changes nothing |
| AdvanceBooking.BookingForm.RemoveGoldItem | components/advance-booking/advance-booking-form.tsx:652-661 | the item at that position is removed; the total follows unless LOCKED |
| AdvanceBooking.BookingForm.TypeOldGoldInputs | components/advance-booking/advance-booking-form.tsx:1625-1672 | accepted weight or rate text is stored, and the draft is settled |
| AdvanceBooking.BookingForm.AddOldGold | components/advance-booking/advance-booking-form.tsx:684-727 | unless the weight is refused, one entry with id `String(now)` is appended and the draft is cleared |
| AdvanceBooking.BookingForm.EditOldGold | components/advance-booking/advance-booking-form.tsx:729-744 | the entry found by id is loaded into the draft and becomes the entry being edited; an unknown id changes nothing |
| AdvanceBooking.BookingForm.UpdateOldGold | components/advance-booking/advance-booking-form.tsx:746-794 | only entries with the edited id take the draft's fields; the draft is then cleared and nothing is being edited |
| AdvanceBooking.BookingForm.CancelEditOldGold | components/advance-booking/advance-booking-form.tsx:796-808 | the draft is cleared and nothing is being edited |
| AdvanceBooking.BookingForm.DeleteOldGold | components/advance-booking/advance-booking-form.tsx:810-819 | the entries with that id are removed and nothing else changes |
| AdvanceBooking.BookingForm.Submit | components/advance-booking/advance-booking-form.tsx:916-1187 | a refused form changes nothing, and neither does a new booking with an item the create path refuses; an accepted one saves the old gold (on edit, after deleting the stale rows) and resets to a new, unlocked booking |
| GoldExchange.EndOfDay | app/dashboard/gold-exchange/page.tsx:172-176 | the end bound is the last millisecond of the chosen day |
| GoldExchange.ApplyFiltersIsOneFilter | app/dashboard/gold-exchange/page.tsx:144-180 | the filter chain keeps exactly the exchanges that pass all three criteria |
| GoldExchange.FilteredIsSubsequence | app/dashboard/gold-exchange/page.tsx:144-180 | the filtered list is a subsequence of the exchanges, and an exchange is in it exactly when it passes |
| GoldExchange.NoCriteriaShowsAll | app/dashboard/gold-exchange/page.tsx:147-179 | with no search term and no dates the list is unchanged |
| GoldExchange.EndDateIsInclusive | app/dashboard/gold-exchange/page.tsx:170-177 | anything created on the end date is kept |
| GoldExchange.SearchFilterMeaning | app/dashboard/gold-exchange/page.tsx:149-159 | the search matches the bill number, customer name or notes without regard to case, or the phone as typed |
| GoldExchange.TotalsSplitByFilter | app/dashboard/gold-exchange/page.tsx:383-384 | the totals of a list are the totals of the part a filter keeps plus the part it drops |
| GoldExchange.MissingValuesCountAsZero | app/dashboard/gold-exchange/page.tsx:383-384 | an exchange without a value or weight adds nothing to the sums |
| GoldExchange.DashPassesWrittenCheck | app/dashboard/gold-exchange/page.tsx:223-239 | as written, the text "-" is allowed by the input and passes validation, yet `parseFloat("-")` is not a number |
| GoldExchange.RejectedExactly | app/dashboard/gold-exchange/page.tsx:223-239 | the corrected check refuses text exactly when it does not read as a positive number |
| GoldExchange.PositiveValue | app/dashboard/gold-exchange/page.tsx:243-244 | accepted text reads as a positive number |
| GoldExchange.HsnColumn | app/dashboard/gold-exchange/page.tsx:264 | the stored HSN code is the one typed, or "7113" when empty |
| GoldExchange.StoredExchange | app/dashboard/gold-exchange/page.tsx:243-287 | a new standalone exchange has no bill, the weight and rate typed, value = weight × rate > 0, and an HSN code |
| GoldExchange.Submit | app/dashboard/gold-exchange/page.tsx:221-309 | a bad weight, then a bad rate, stops the save with nothing written; otherwise the edited row is updated, or one new standalone row is inserted |
| GoldExchange.UpdateTouchesOnlyItsRow | app/dashboard/gold-exchange/page.tsx:255-266 | an edit leaves every other row as it was and keeps the edited row's bill; the stored value is weight × rate |
| GoldExchange.StoredNotesReadBack | app/dashboard/gold-exchange/page.tsx:248-251 | the notes stored for an exchange read back as the particulars and the HSN code typed |
| GoldExchange.Delete | app/dashboard/gold-exchange/page.tsx:311-341 | the chosen exchange is removed and nothing else; with none chosen nothing happens |
| PurchaseBilling.RateForPurity | components/billing/purchase-billing.tsx:293-305 | 22k/91.6% gives gold_916, falling back to gold; 18k/75% gives gold_750, falling back to gold; 92.5% gives silver_92, falling back to gold; 70% gives silver_70 or 0; any other purity keeps the rate |
| PurchaseBilling.RateFallsBackOnlyWhenUnset | components/billing/purchase-billing.tsx:295-301 | the gold rate is used only when the purity's own rate is 0 |
| PurchaseBilling.GrandTotalIsSubtotalPlusEighteenPercent | components/billing/purchase-billing.tsx:106-109 | CGST = SGST = 9% of the subtotal, and the grand total is 1.18 × the subtotal |
| PurchaseBilling.SubtotalAppend | components/billing/purchase-billing.tsx:106 | adding a line raises the subtotal by its amount |
| PurchaseBilling.SubtotalAfterRemove | components/billing/purchase-billing.tsx:102-106 | after a remove, the subtotal drops by the amounts of exactly the removed lines |
| PurchaseBilling.NextNumberOfDay | components/billing/purchase-billing.tsx:141-152 | after bill `AM-PURCHASE-<today>-NNNN`, the next number is NNNN + 1, zero-padded to four digits |
| PurchaseBilling.FirstNumberOfDay | components/billing/purchase-billing.tsx:149-152 | with no bill for today, the number is `AM-PURCHASE-<today>-0001` |
| PurchaseBilling.ItemOf | components/billing/purchase-billing.tsx:85-96 | a line's amount is weight × rate, and its id is the current time |
| PurchaseBilling.PurchaseSlip.constructor | components/billing/purchase-billing.tsx:30-62 | a new slip has no items and no bill number; the entry row has purity 22k at the loaded gold rate |
| PurchaseBilling.PurchaseSlip.ResetEntry | components/billing/purchase-billing.tsx:98 | after an add, the entry row is purity 92.5% at the gold rate |
| PurchaseBilling.PurchaseSlip.TypeWeight | components/billing/purchase-billing.tsx:283 | typing a weight sets `parseFloat(text) \|\| 0` |
| PurchaseBilling.PurchaseSlip.TypeRate | components/billing/purchase-billing.tsx:320 | typing a rate sets `parseFloat(text) \|\| 0` |
| PurchaseBilling.PurchaseSlip.SelectPurity | components/billing/purchase-billing.tsx:287-306 | choosing a purity sets it and the rate from the table |
| PurchaseBilling.PurchaseSlip.AddItem | components/billing/purchase-billing.tsx:83-100 | with a non-zero weight and rate, exactly one line is appended and the entry row is reset; otherwise nothing changes; every line keeps amount = weight × rate |
| PurchaseBilling.PurchaseSlip.RemoveItem | components/billing/purchase-billing.tsx:102-104 | the lines with that id are dropped; the rest keep their order |
| PurchaseBilling.PurchaseSlip.EnsureBillNo | components/billing/purchase-billing.tsx:161-171 | a bill number is generated only while there is none |
| Inventory.DecodeEncodedCategory | components/inventory/inventory.tsx:84-86 | saving "Others" with a non-blank custom text and opening it again shows "Others" and the trimmed text |
| Inventory.EncodeDecodedCategory | components/inventory/inventory.tsx:137-145 | decoding a saved category and encoding it again gives it back, when the custom part is trimmed and not blank |
| Inventory.BlankCustomIsDropped | components/inventory/inventory.tsx:84-86 | a blank custom text leaves the chosen category as it is |
| Inventory.DefaultPurity | components/inventory/inventory.tsx:314-332 | gold_916 gives 91.6, gold_750 gives 75, silver_92 gives 92.5, silver_70 gives 70, and anything else gives an empty purity |
| Inventory.ReplaceById | components/inventory/inventory.tsx:93 | only the items with the edited id are replaced; the list keeps its length |
| Inventory.FilteredItemsExactly | components/inventory/inventory.tsx:170-173 | the list shows exactly the items whose name or barcode contains the term, ignoring case, in list order |
| Inventory.EmptySearchShowsAll | components/inventory/inventory.tsx:170-173 | an empty search shows every item |
| Inventory.InventoryPage.constructor | components/inventory/inventory.tsx:108-124 | the loaded page has an empty form and nothing being edited |
| Inventory.InventoryPage.TypeWeight | components/inventory/inventory.tsx:301-302 | typing a weight sets `parseFloat(text) \|\| 0` |
| Inventory.InventoryPage.SelectMetal | components/inventory/inventory.tsx:309-334 | choosing a metal sets it and its default purity |
| Inventory.InventoryPage.Save | components/inventory/inventory.tsx:72-135 | an incomplete form changes nothing; otherwise the edited item is replaced in place, or the new item is put first; the form is then cleared |
| Inventory.InventoryPage.Edit | components/inventory/inventory.tsx:137-148 | the form takes the item's fields, with an "Others - " category split into "Others" and the custom text |
| Inventory.InventoryPage.Delete | components/inventory/inventory.tsx:150-168 | once confirmed, exactly the items with that id go and the rest keep their order |
| Inventory.UpdateTouchesOnlyEditedItem | components/inventory/inventory.tsx:93 | every item with another id keeps its place and contents |
| Inventory.EditThenSaveKeepsItem | components/inventory/inventory.tsx:84-102 | editing an item and saving it unchanged gives back the same item, category included |
| InvoicePrint.MetalName | components/billing/invoice-print.tsx:98-108 | the six known metal types have fixed names; any other is shown in capitals |
| InvoicePrint.MetalTypes | components/billing/invoice-print.tsx:115-119 | the metal types collected are exactly the non-empty types on the lines |
| InvoicePrint.FirstSeenProperties | components/billing/invoice-print.tsx:114-121 | the set holds every metal once and nothing else, ordered by first occurrence |
| InvoicePrint.UniqueMetals | components/billing/invoice-print.tsx:114-121 | the loop yields the distinct metal types in first-seen order |
| InvoicePrint.RateLines | components/billing/invoice-print.tsx:121-127 | every line has a rate > 0 equal to the table's rate for its metal, and the metal's display name |
| InvoicePrint.RateLinesComplete | components/billing/invoice-print.tsx:121-127 | every metal with a positive rate gets a line |
| InvoicePrint.RateLinesKeepOrder | components/billing/invoice-print.tsx:121-127 | the lines follow the order of the metals |
| InvoicePrint.GetMetalRates | components/billing/invoice-print.tsx:111-128 | no rate table gives no lines; otherwise the lines are those of the distinct metals of the bill |
| InvoicePrint.RateLinesOfBill | components/billing/invoice-print.tsx:111-128 | each metal appears at most once, in first-seen order, with its own positive rate, and every metal on the bill with a positive rate appears |
| InvoicePrint.PaymentTotalAppend | components/billing/invoice-print.tsx:670 | the payment total of two lists is the sum of their totals |
| InvoicePrint.UnreadableAmountAddsNothing | components/billing/invoice-print.tsx:670 | an amount that is not a number counts as 0 |
| JsNum.ParseIntOfIntToString | components/billing/purchase-billing.tsx:145-147 | `parseInt(String(n))` gives back n |
| JsNum.PadStart | components/billing/purchase-billing.tsx:148 | `padStart(width, c)` keeps the text at the end, fills the front with c, and reaches at least the width |

## Left out

- Rendering, print layout, toasts and console logging.
- Customer search and creation, barcode lookup, and the loading of bill
  items and of old gold when a booking is opened. These are remote calls.
  `BookingForm.Edit` starts from the stored total and advance, with empty
  lists.
- The fetching of the day's metal rates and its fallback to the latest
  rates. The rates are a constant map. `String(allMetalRates.gold)` is the
  `goldRateText` parameter.
- Creating the bill, the bill items and the booking record, and updating the
  booking, are remote calls. Their old-gold part and the checks on the items
  before the bill items are created (`FirstBadItem`) are modelled; the
  records themselves are not. When an item is refused, the source has
  already created the bill, which stays without items; the model does not
  keep bills. Remote failures are not modelled, and every store call
  succeeds.
- NaN and Infinity. `parseFloat` reads decimal text without exponents, and
  the result of `x || 0` on NaN is `ParseFloatOr0`.
- `toFixed`, locale formatting, and JavaScript `Date` parsing and time zones.
  The date filter takes instants in milliseconds, and "today" is a string
  parameter.
- GoldExchange.ApplyFilters: takes the start and the end day in one time
  frame. The page reads the start date as midnight UTC and sets the end
  date's hours in local time, so outside UTC the two bounds are shifted
  against each other (in India, exchanges made before 05:30 on the start
  day are dropped).
- Text.ToLower: folds ASCII letters only; JavaScript's `toLowerCase` also
  folds other Unicode letters.
- Text.ToUpper: folds ASCII letters only; JavaScript's `toUpperCase` also
  folds other Unicode letters.
- Inventory.MatchesTerm: ignores case for ASCII letters only, through
  `Text.ToLower`.
- GoldExchange.MatchesSearch: ignores case for ASCII letters only, through
  `Text.ToLower`.
- InvoicePrint.MetalName: an unknown metal type is shown in capitals for
  ASCII letters only, through `Text.ToUpper`.
- Opening and closing of the gold-exchange form, and the value the form
  shows while typing.
- The inventory's other columns (making charges, stone, GST rate, price,
  stock status, location, remarks). The store's copy of a saved item is
  taken to be the item sent.
- Keys such as `constructor` on JavaScript `Record` objects. They are not
  metal names.
- AdvanceBooking.BookingForm.Submit: uses the intended id rule
  (`PersistedId`) for the old-gold save. The as-written rule is kept in
  `Reconcile` and shown to lose new entries (see Findings).
- GoldExchange.Submit: validates with the corrected check `Rejected`. The
  as-written check is `RejectedAsWritten` (see Findings).
- AdvanceBooking.BookingForm.AddOldGold: keeps the as-written weight check
  `WeightRejected`. Like the gold-exchange check, it lets text such as "-"
  through. The entry then gets weight 0, because the effect reads NaN as 0.
- PurchaseBilling.BillNumber: the fallback number `AM-PURCHASE-<Date.now()>`
  after a failed query is modelled only as the `Failed(nowMs)` case. Query
  failures themselves are not modelled.

## Findings

| source | as written | input that shows it | evidently intended | confidence | as-written member | corrected member |
|---|---|---|---|---|---|---|
| components/advance-booking/advance-booking-form.tsx:973-997 | an old-gold entry is updated when `!isNaN(parseInt(og.id))`, but an entry added in the form has id `Date.now().toString()`, which is numeric | one entry added to a new booking at `Date.now() == 1760000000000`: it is sent as an update of row 1760000000000, which does not exist, and the bill ends with no old-gold row | update only the entries whose id was read back from the bill; insert the others | not executed | Reconcile.NewBookingLosesOldGoldExample | Reconcile.PersistedIdRecordsEveryEntry |
| app/dashboard/gold-exchange/page.tsx:223-239 | the check `!input \|\| parseFloat(input) <= 0` passes text that is not a number, because NaN <= 0 is false; the input accepts "-" | weight "-": it passes the check, and the row is sent with weight and value NaN, which JSON turns into null: the row is stored without a weight and a value, or the write fails if those columns are NOT NULL | refuse anything that does not read as a positive number | not executed | GoldExchange.DashPassesWrittenCheck | GoldExchange.RejectedExactly |
