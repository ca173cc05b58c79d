# Dashfact in Dafny

A model of the client-side business logic of Dashfact. Dashfact is an invoicing
and stock dashboard for a chain of shops ("magasins"). It is written as React
pages over a REST backend. The model keeps the parts of those pages that compute
something. It leaves out the parts that only fetch, render or print.

- **Invoice editor** (`InvoiceDraft`). This is the draft that the invoice
  modal holds.
  - Line items, subtotal, 19% tax, total, amount paid, amount owed, and a
    payment status.
  - Every event handler is a pure transition on the draft: opening in creation
    or edit mode, adding, removing or changing a line, choosing a status,
    typing the amount paid, and building the submitted payload.
- **Invoice list** (`InvoiceList`).
  - The fetched list, sorted by numeric id.
  - The three-stage filter: keyword, then date window, then status.
  - The reset button and the status colours.
  - The figures printed on an invoice, including the 1 TND fiscal stamp.
- **Per-store invoice breakdown** (`StoreInvoices`).
  - The `reduce` that opens one row per store id and accumulates counts and
    sums.
  - The row's status tag, the headline figures and the summary row.
- **Home page** (`Home`).
  - Per-status counts and amounts, revenue, and today's invoices.
  - The five most recent invoices.
  - The rounded percentages of the gauges, and the status tag.
- **Stock page** (`Stock`).
  - Which products an account sees, the keyword search, and the rows the
    table shows.
  - Available stock and stock value.
  - The per-store stock summary built with `groupBy`.
- **Product form** (`ProductForm`).
  - The per-store quantity rows: initial rows, add, remove and change.
  - The image upload check, and the quantities that are submitted.
- **User administration** (`Admins`).
  - The store ids of a user, which can be nothing, one id or a list.
  - How those ids are normalised for the edit form, the payload, the table
    column and the detail view.
  - The truncated id column and the activity tag.

Supporting modules:

- `Seqs`: `Sum`, `Filter` and `Map` as left folds, like JavaScript's `reduce`,
  `filter` and `map`, plus their algebra.
- `Text`: ASCII lower-casing and `includes`.
- `Sorting`: a stable sort, like lodash `sortBy` and `Array.prototype.sort`.
- `Grouping`: first-appearance grouping and a generic keyed fold, proved equal
  to "one row per distinct key, built from its group".
- `Domain`: the records the pages exchange with the backend.

Money and every other number that takes part in arithmetic is an exact `real`.
Dates are integer millisecond timestamps in UTC.

In a few places the code does something a reader might not expect. The model
follows the code:

- In edit mode, `calculateTotals` sets the amount paid to the new total. It
  does not keep the amount already paid. The amount owed is measured against
  the previous paid amount first, so paid plus owed can exceed the total.
- Opening an invoice for editing ignores the stored paid and owed amounts. The
  recompute runs with the paid amount of the previous draft and overwrites
  both.
- `handleAddItem` appends a line without recomputing the figures. The new line
  is worth nothing, so the figures stay right.
- The invoice list's reset empties the table until the filters are applied
  again. The stock page does the opposite: an empty search result shows every
  product.

## Model

| member | source | states |
|---|---|---|
| InvoiceDraft.Classify | src/pages/Modals/InvoiceModalAddEdit.js:208-214 | "paid" exactly when paid >= total; "partially_paid" exactly when 0 < paid < total; "unpaid" in every other case |
| InvoiceDraft.CalculateTotals | src/pages/Modals/InvoiceModalAddEdit.js:91-114 | the figures are those of the new lines: subtotal is the sum of quantity × sale price, plus 19% tax; paid becomes the total; owed is 0 when creating and max(0, total − previous paid) when editing; status unchanged |
| InvoiceDraft.CreateRecomputeSettles | src/pages/Modals/InvoiceModalAddEdit.js:106-112 | in creation mode a recompute leaves paid + owed = total, and the paid amount classifies as "paid" |
| InvoiceDraft.EditRecomputeOverstates | src/pages/Modals/InvoiceModalAddEdit.js:103-105 | in edit mode paid + owed exceeds the new total by max(0, total − old paid); it is strictly more exactly when the old paid amount was below the total |
| InvoiceDraft.EditRecomputeTwiceClearsBalance | src/pages/Modals/InvoiceModalAddEdit.js:103-105 | a second edit-mode recompute with the same subtotal reports nothing owed |
| InvoiceDraft.OpenCreate | src/pages/Modals/InvoiceModalAddEdit.js:76-88 | a new invoice starts with no lines, every figure 0 (paid and owed included), and status "paid", which is the classification of paying 0 on a total of 0 |
| InvoiceDraft.OpenCreateAgrees | src/pages/Modals/InvoiceModalAddEdit.js:76-88 | the zero figures of a new invoice are those of its empty line list |
| InvoiceDraft.OpenEdit | src/pages/Modals/InvoiceModalAddEdit.js:53-75 | opening a stored invoice loads its lines and its status (an empty status becomes "unpaid") with agreeing figures; paid = total and owed = max(0, total − previous draft's paid) |
| InvoiceDraft.OpenEditIgnoresRecordedPayment | src/pages/Modals/InvoiceModalAddEdit.js:73-75 | the stored paid and owed amounts have no effect on the opened draft |
| InvoiceDraft.AddItem | src/pages/Modals/InvoiceModalAddEdit.js:116-130 | one line is appended, with quantity 1, price 0, no product, empty reference and name, and the first store's id when that id is non-empty (no store otherwise); earlier lines and every other field are unchanged |
| InvoiceDraft.AddItemKeepsTotals | src/pages/Modals/InvoiceModalAddEdit.js:116-130 | figures that agreed with the old lines still agree after the append, with no recompute |
| InvoiceDraft.RemoveItem | src/pages/Modals/InvoiceModalAddEdit.js:132-137 | `splice(index, 1)`: an index in range removes exactly that line and keeps the order; an index past the end removes nothing; then the figures are recomputed: they agree with the remaining lines, paid becomes the total, owed is 0 when creating and max(0, total − previous paid) when editing, and the status is kept |
| InvoiceDraft.RemoveItemSubtotal | src/pages/Modals/InvoiceModalAddEdit.js:132-137 | removing a line takes exactly its amount out of the subtotal |
| InvoiceDraft.FindProduct | src/pages/Modals/InvoiceModalAddEdit.js:144 | `find` returns the first product with the id, or nothing exactly when no product has it |
| InvoiceDraft.ChangeItem | src/pages/Modals/InvoiceModalAddEdit.js:139-156 | only the edited line changes; a quantity edit sets the quantity; choosing a known product copies its reference, name, size and both prices; any other product choice only sets the id; then the figures are recomputed: they agree with the lines, paid becomes the total, owed is 0 when creating and max(0, total − previous paid) when editing, and the status is kept |
| InvoiceDraft.ChangeItemSubtotal | src/pages/Modals/InvoiceModalAddEdit.js:139-156 | the subtotal moves by exactly the edited line's change in amount |
| InvoiceDraft.ChangeStatus | src/pages/Modals/InvoiceModalAddEdit.js:179-196 | "paid" sets paid = total and owed = 0; "unpaid" sets paid = 0 and owed = total; any other status leaves both amounts; nothing else changes |
| InvoiceDraft.StatusShortcutAgreesWithClassify | src/pages/Modals/InvoiceModalAddEdit.js:179-214 | after "paid" the paid amount classifies as paid; after "unpaid" it classifies as unpaid exactly when the total is positive |
| InvoiceDraft.ChangePayed | src/pages/Modals/InvoiceModalAddEdit.js:198-215 | input that is not a number counts as 0; owed is never negative and completes the total when paid <= total; the status is the classification; nothing else changes |
| InvoiceDraft.CreateFirstEditSettles | src/pages/Modals/InvoiceModalAddEdit.js:116-156 | on a new invoice, adding a line and editing it recomputes the figures: paid + owed = total, and the status "paid" agrees with the classification of the paid amount |
| InvoiceDraft.CreateAddThenRemove | src/pages/Modals/InvoiceModalAddEdit.js:116-137 | on a new invoice, adding a line and removing it gives back no lines, total 0, paid 0, owed 0 and status "paid" |
| InvoiceDraft.PayedBoundaries | src/pages/Modals/InvoiceModalAddEdit.js:198-215 | paying exactly the total gives "paid" with nothing owed; paying 0 on a positive total gives "unpaid" with the whole total owed |
| InvoiceDraft.SubmitPayload | src/pages/Modals/InvoiceModalAddEdit.js:222-247 | the payload carries the draft's lines, subtotal, tax, total, paid amount, owed amount and status |
| InvoiceDraft.PayloadTotalMatchesLines | src/pages/Modals/InvoiceModalAddEdit.js:230-245 | for a draft whose figures agree, the submitted total is the submitted lines' subtotal × 1.19 |
| Domain.ParseStatus | src/pages/Modals/InvoiceModalAddEdit.js:24-28 | a stored status string reads as one of the three named statuses or as itself, always well formed, and writing it back gives the same string |
| Domain.ParseStatusName | src/pages/Modals/InvoiceModalAddEdit.js:24-28 | a well-formed status survives writing and reading back |
| Domain.StatusNameInjective | src/pages/Home.js:49 | on well-formed statuses, two statuses are equal exactly when their stored strings are, which is the comparison the page filters make |
| Domain.Max0 | src/pages/Modals/InvoiceModalAddEdit.js:200 | `Math.max(0, x)` is non-negative, at least x, and is either x or 0 |
| InvoiceList.SortFetched | src/pages/Invoice.js:74-77 | the fetched invoices are kept as a permutation, sorted by numeric id |
| Sorting.SortByStable | src/pages/Invoice.js:74-76 | the sort is stable: invoices with equal keys keep their relative order |
| InvoiceList.Loaded | src/pages/Invoice.js:70-83 | after a fetch the table shows the whole sorted list; only the search box is cleared |
| InvoiceList.ApplyFilters | src/pages/Invoice.js:123-155 | the result is a subsequence of the data, and is all of it when no control is set |
| InvoiceList.ApplyFiltersIsOneFilter | src/pages/Invoice.js:123-155 | the three stages equal one filter by the conjunction of the active tests, with order and duplicates preserved |
| InvoiceList.ApplyFiltersMembership | src/pages/Invoice.js:123-155 | an invoice is shown if and only if it is in the data and passes every active stage |
| InvoiceList.ApplyFiltersIdempotent | src/pages/Invoice.js:123-155 | applying the filters to their own result changes nothing |
| InvoiceList.KeywordStageExact | src/pages/Invoice.js:127-133 | the keyword stage keeps an invoice if and only if its lower-cased number or customer name contains the lower-cased search text at some position |
| Text.IncludesIff | src/pages/Invoice.js:130-131 | `includes` holds if and only if the needle occurs at some position |
| Domain.StartOfDay | src/pages/Invoice.js:141 | the start of the day is the last midnight at or before the timestamp |
| Domain.EndOfDay | src/pages/Invoice.js:142 | the end of the day is the last millisecond before the next midnight |
| InvoiceList.Apply | src/pages/Invoice.js:123-155 | applying shows exactly the data filtered by the conjunction of the active tests, in order (a subsequence of the data), and changes neither the data nor the controls |
| InvoiceList.Reset | src/pages/Invoice.js:157-162 | a reset clears every control and empties the table but keeps the data |
| InvoiceList.ResetThenApplyShowsAll | src/pages/Invoice.js:157-162 | applying straight after a reset shows the whole list again |
| InvoiceList.ListStatusColor | src/pages/Invoice.js:630-635 | green, red and orange for the three statuses; "default" exactly for any other status |
| InvoiceList.PrintedLineAmounts | src/pages/Invoice.js:242-249 | one printed amount per line, equal to quantity × sale price |
| InvoiceList.PrintedTotal | src/pages/Invoice.js:347-353 | the printed TOTAL exceeds the stored total by the 1 TND stamp |
| InvoiceList.PrintedTotalFromLines | src/pages/Invoice.js:332-353 | when the stored figures agree with the lines, the printed TOTAL = (sum of the printed line amounts) × 1.19 + 1 |
| StoreInvoices.OpenRow | src/pages/Modals/MagasinIdInvoicesModal.js:10-23 | a new row carries the store of the invoice that opened it, with zero counts and no invoices |
| StoreInvoices.AddInvoice | src/pages/Modals/MagasinIdInvoicesModal.js:25-29 | one invoice adds 1 to the count, adds its total, paid and owed amounts to the sums, is appended to the row's list, and leaves the metadata alone |
| StoreInvoices.AddAllInvoices | src/pages/Modals/MagasinIdInvoicesModal.js:25-29 | adding a list of invoices adds its length, its three sums and its elements |
| Grouping.GroupFoldIsGroupRows | src/pages/Modals/MagasinIdInvoicesModal.js:9-34 | a keyed `reduce`, read back in insertion order, builds one row per distinct key in order of first appearance; each row is its group folded from its first element |
| StoreInvoices.StoreRows | src/pages/Modals/MagasinIdInvoicesModal.js:9-34 | the `reduce` read back with `Object.values` is one row per distinct store id in order of first appearance, each opened from its first invoice with every invoice of that store added in order |
| StoreInvoices.GroupRowIsRowOf | src/pages/Modals/MagasinIdInvoicesModal.js:9-32 | the folded row of a store is its group's count, sums and invoices under the first invoice's metadata |
| StoreInvoices.StoreRowsIsReference | src/pages/Modals/MagasinIdInvoicesModal.js:9-34 | the breakdown equals one row per distinct store id, built from that store's invoices |
| StoreInvoices.RowsHoldTheirStore | src/pages/Modals/MagasinIdInvoicesModal.js:9-34 | each row is for one store id and lists exactly that store's invoices in input order; its count is that list's non-zero length |
| StoreInvoices.RowTotalsMatchInvoices | src/pages/Modals/MagasinIdInvoicesModal.js:9-34 | over all rows, the amount, paid, owed and count columns add up to the same figures over all invoices |
| StoreInvoices.RowTagOf | src/pages/Modals/MagasinIdInvoicesModal.js:81-97 | "Tout payé" exactly when the row owes 0; "Partiel" exactly when it owes something and has paid something |
| StoreInvoices.RowTagMeaning | src/pages/Modals/MagasinIdInvoicesModal.js:81-97 | with non-negative amounts: "Tout payé" if and only if none of the store's invoices owes anything; "Non payé" if and only if one owes something and none has paid anything |
| StoreInvoices.HeadlineOf | src/pages/Modals/MagasinIdInvoicesModal.js:188-196 | the headline counts one entry per distinct store and one per invoice, and never has more stores than invoices |
| StoreInvoices.SummaryOf | src/pages/Modals/MagasinIdInvoicesModal.js:208-241 | the summary tag reads "Tout payé" exactly when the summed amount owed is 0 |
| StoreInvoices.SummaryMatchesInvoices | src/pages/Modals/MagasinIdInvoicesModal.js:208-241 | the summary amount equals the headline amount; summary paid is the paid total over all invoices; with non-negative amounts it reads "Tout payé" if and only if no invoice owes anything |
| Home.CalculateStats | src/pages/Home.js:48-53 | the count is the number of invoices with the status and the total is the sum of their totals (each invoice contributes 1 and its total if it has the status, 0 otherwise); the count is at most the number of invoices, and is 0 if and only if no invoice has the status |
| Home.Revenue | src/pages/Home.js:76 | the revenue card sums the invoice totals; with non-negative totals it is non-negative, and 0 exactly when every total is 0 |
| Home.StatsPartitionRevenue | src/pages/Home.js:48-57 | when every invoice has one of the three statuses, the three cards' counts add up to the invoice count and their amounts add up to the revenue |
| Home.StatsTotalAtMostRevenue | src/pages/Home.js:48-57 | with non-negative totals, no status card shows a negative amount or more than the revenue |
| Home.TodayInvoices | src/pages/Home.js:59-61 | today's invoices are a subsequence of the invoices, each dated within the day that contains the clock reading |
| Home.TodayMembership | src/pages/Home.js:59-61 | an invoice is today's if and only if its timestamp lies in the day that contains the clock reading |
| Home.RecentInvoices | src/pages/Home.js:63-65 | at most five invoices, drawn from the list, newest first; none of the invoices left out is newer than the last one shown |
| Home.RecentKeepsInputOrder | src/pages/Home.js:63-65 | the sort is stable: of the invoices sharing a date, those shown are the first of them in the fetched order |
| Home.NewestFirst | src/pages/Home.js:63-65 | the first n of a list sorted newest first are ordered and at least as new as every omitted invoice |
| Home.Percent | src/pages/Home.js:161 | half-up rounding: 2n·p <= 200·count + n < 2n·(p+1); between 0 and 100 when count <= n; 0 for an empty list |
| Home.PercentsNearlyAddUp | src/pages/Home.js:161-175 | when the three counts cover the list, the three gauges add up to between 99 and 101 |
| Home.StatusTag | src/pages/Home.js:110-117 | green "Payée", red "Impayée" and orange "Partiellement Payée" for the three statuses; no tag exactly for any other status |
| Home.StatusColoursAgree | src/pages/Home.js:110-117 | the home page's tag and the invoice list's badge (src/pages/Invoice.js lines 630-635) give each named status the same colour; both fall back only for other statuses |
| Stock.VisibleProducts | src/pages/Produit.js:75-83 | the list is sorted by numeric id; for an account that is not a "user" it is a permutation of the fetched list |
| Stock.VisibleMembership | src/pages/Produit.js:75-80 | a product is listed if and only if it was fetched and, for a "user" account, belongs to one of that account's stores |
| Stock.Loaded | src/pages/Produit.js:70-83 | after a fetch the list is the visible products sorted by numeric id: a product is listed if and only if it was fetched and, for a "user" account, belongs to one of its stores; the search box and results are cleared, so the table shows the whole list |
| Stock.Displayed | src/pages/Produit.js:490 | the table shows the search results when there are any, and the whole list otherwise |
| Stock.Search | src/pages/Produit.js:313-325 | an empty box refetches; otherwise the results are a subsequence of the list |
| Stock.SearchMembership | src/pages/Produit.js:319-323 | a product is found if and only if its lower-cased name or reference contains the lower-cased search text at some position |
| Stock.EmptySearchShowsEverything | src/pages/Produit.js:313-325 | a search that finds nothing leaves the table showing every product |
| Stock.Summarise | src/pages/Produit.js:168-212 | a row counts its products and takes its store from the first one (the id with name "Unknown" for an empty group); its initial, sold and lost totals are the sums of those quantities; its stock total is the sum of the products' available stock; its stock value is the sum of available stock × purchase price, which is also the sum of the "Valeur" column of the product table |
| Stock.StockByStore | src/pages/Produit.js:164-214 | one row per distinct store id |
| Stock.RowsHoldTheirStore | src/pages/Produit.js:164-173 | each row is for one store and holds exactly that store's products, at least one |
| Stock.RowFigures | src/pages/Produit.js:164-192 | a row's count, stock total and stock value are those of exactly the products of its store, the value agreeing with the "Valeur" column |
| Stock.StockByStoreTotals | src/pages/Produit.js:164-214 | over all rows, the counts add up to the number of products, and the stock and value columns add up to the per-product available stock and value |
| ProductForm.InitialRows | src/pages/Modals/ProduitModalAddEdit.js:55-80 | editing a record starts from its rows (or none when it has none); creating starts from none |
| ProductForm.AddRow | src/pages/Modals/ProduitModalAddEdit.js:84-94 | one row of zeros is appended; it gets the account's first store exactly when the account is a "user" with at least one store |
| ProductForm.RemoveRow | src/pages/Modals/ProduitModalAddEdit.js:96 | removing by index leaves one row fewer when the index names a row and as many otherwise, and keeps only rows that were there |
| ProductForm.RemoveRowIsSlice | src/pages/Modals/ProduitModalAddEdit.js:96-99 | removing drops exactly the row at the index and keeps the rest in order; an index that names no row removes nothing |
| ProductForm.RemoveUndoesAdd | src/pages/Modals/ProduitModalAddEdit.js:84-99 | adding a row and removing it gives back the original rows |
| ProductForm.ChangeRow | src/pages/Modals/ProduitModalAddEdit.js:101-108 | only the indexed row changes, and in it only the edited field |
| ProductForm.LastChangeWins | src/pages/Modals/ProduitModalAddEdit.js:101-108 | of two edits to the same field of the same row, the last one wins |
| ProductForm.BeforeUpload | src/pages/Modals/ProduitModalAddEdit.js:110-122 | a file is accepted if and only if its MIME type starts with "image/" and it is under 2 MB; each failed condition reports its own message |
| ProductForm.ToNumber | src/pages/Modals/ProduitModalAddEdit.js:175-177 | a number stays itself; a cleared input becomes 0 |
| ProductForm.PayloadRows | src/pages/Modals/ProduitModalAddEdit.js:170-179 | one submitted row per row: the same store, and every filled counter unchanged |
| ProductForm.PayloadOfAddedRow | src/pages/Modals/ProduitModalAddEdit.js:170-179 | after adding a row, the earlier rows are submitted unchanged, followed by a row of zeros |
| Admins.NormaliseForm | src/pages/Admins.js:57-62 | a list is kept, a non-empty single id becomes a one-element list, and a missing or empty value becomes no stores |
| Admins.NormaliseColumn | src/pages/Admins.js:346-350 | an array is kept; anything else gives at most one id, present exactly when the field is truthy, and that id is the single value |
| Admins.NormalisationsAgree | src/pages/Admins.js:344-350 | the column's normalisation, which tests the array case first, agrees with the form's on every input |
| Admins.NormaliseIdempotent | src/pages/Admins.js:57-62 | normalising a normalised list changes nothing |
| Admins.PayloadStores | src/pages/Admins.js:84 | the form's list is sent as it is; no selection sends no stores |
| Admins.EditSubmitsNormalised | src/pages/Admins.js:57-84 | opening a user and submitting without changes sends the normalised store list |
| Admins.FindStore | src/pages/Admins.js:355 | `find` returns the first store with the id, or nothing exactly when no store has it |
| Admins.StoreTags | src/pages/Admins.js:354-361 | at most one tag per id, and every tag is the name of a known store |
| Admins.StoreTagsAreKnownNames | src/pages/Admins.js:354-361 | the tags are the names of the ids that have a store, in order; unknown ids are dropped |
| Admins.ColumnCell | src/pages/Admins.js:344-367 | the column shows "Non assigné" if and only if the normalised list is empty |
| Admins.DetailCell | src/pages/Admins.js:481-498 | the detail view shows "Non assigné" if and only if the field is missing or an empty string |
| Admins.CellsDisagreeOnlyOnEmptyList | src/pages/Admins.js:482-498 | the column and the detail view disagree only on an empty list: the column shows "Non assigné" and the detail view shows no tags |
| Admins.ActivityTag | src/pages/Admins.js:474-479 | ("success", "Actif") if and only if the status is "active"; exactly ("error", "Inactif") for any other status |
| Admins.ShortId | src/pages/Admins.js:286 | the first eight characters of the id (all of a shorter id), followed by "..." |
| Admins.ShortIdSeesEightCharacters | src/pages/Admins.js:286 | two ids show the same short id if and only if their first eight characters (the whole id when shorter) are equal |

## Left out

- HTTP requests, `localStorage`, notifications, loading flags, pagination, row
  selection and rendering are left out. The model receives the fetched data
  as arguments and returns what the page computes from it.
- PDF drawing (jsPDF), Excel import and export, and the image upload request
  are left out because they are I/O. Only the printed figures are modelled.
- Bulk deletion (`Promise.all` over DELETE requests) is left out because it is
  I/O and concurrency.
- The sign-in page and the client modal are not part of this model.
- Floating-point arithmetic is modelled as exact reals, and `toFixed(2)`
  formatting is left out. A sum that JavaScript would round differently is not
  distinguished.
- Home.Percent: the division in `Math.round(count / n * 100)` is exact here. A
  quotient that floating point lands just below a half-point could round the
  other way in JavaScript.
- Lower-casing covers ASCII letters only. Unicode case mapping is left out.
- Dates are UTC millisecond timestamps. `moment` and `dayjs` work in the
  browser's local time zone, and that offset is left out.
- Grouping follows the order in which keys first appear. JavaScript objects
  and lodash `groupBy` list integer-like keys in numeric order first. Store
  ids are assumed not to be integer-like.
- Ids are compared with `Number(_id)` as an integer `idNum` on each record.
  Non-numeric ids, which sort as `NaN`, are left out.
- InvoiceDraft.ChangeItem and ProductForm.ChangeRow require an index that names
  an existing line. The page only passes indexes of rendered rows. In
  JavaScript an index out of range throws or extends the list.
- InvoiceDraft.OpenEdit: a record without `items` (`record.items || []`) is not
  modelled. Every record has a list of lines.
- InvoiceDraft.AddItem: the line's store falls back to no store when the first
  store's id is empty. The form-level `magasinId` fields of the invoice and
  the customer autofill are left out.
- ProductForm.AddRow: `user.magasinId[0]` on an account without a store list
  throws in JavaScript. The model gives it no store.
- InvoiceDraft.ChangeItem: lines are values here. The page edits the line
  objects in place (`newItems[index][field] = value`), and in edit mode those
  objects are the listed record's own. An edit that is then cancelled still
  changes the invoice shown in the list, whose stored figures then no longer
  agree with its lines, so InvoiceList.FiguresAgree can fail for it.
- InvoiceDraft.ItemEdit: a cleared quantity box stores `null`. The totals
  count it as 0, but the payload sends `quantity: null`. The model's quantity
  is always a number.
- Domain.Status: a status read as `Other` of "unpaid", "partially_paid" or
  "paid" would differ from the named status with the same stored string.
  Domain.WellFormedStatus rules this out, and Domain.ParseStatus only
  produces well-formed statuses. The other members do not require it.
- StoreInvoices.StoreRows and Stock.StockByStore: a record without a populated
  `magasinId` makes the page throw when it reads `magasinId._id`. The model's
  invoices and products always carry a store.
- Domain.Account: the session account's stores are always a list of ids. A
  user record can also hold a single id string. The page then tests store
  membership with `String.prototype.includes`, a substring test. It also
  takes `magasinId[0]` as the new quantity row's store, which is that id's
  first character. Stock.VisibleProducts and ProductForm.AddRow model only
  the list shape.
- Stock.Summarise: each row keeps the full product records instead of the
  seven-field projection the page builds.
- Stock.VisibleProducts: a product's store is compared by id. The page compares
  the raw `magasinId` field, which holds the store id in the `/stock` response.
- Home.StatusTag: a status outside the three named ones makes the page throw.
  The model returns no tag.
- Admins.ShortId: an id that is missing (where `substring` throws) is not
  modelled.
