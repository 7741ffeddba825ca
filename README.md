# Order and lead dashboard — a Dafny model of its client logic

The dashboard is a single-page app for a small seller. Moderators take
customer orders and call the leads assigned to them. An administrator
manages the product catalogue, the moderator accounts, courier sync,
lead assignment and the CSV export of orders.

All of its logic runs in the browser, inside the screens' handlers. This
project models that logic in Dafny and proves what each part promises.
It covers:

- **The client-side store.** This is the app root. It holds four lists:
  orders, leads, products and moderators. On load it maps the data
  store's rows to records. Its handlers then replace those lists after
  remote writes.
- **The order form.** It covers the draft lines, the stock clamp, the
  total, the submit checks, the `Order` record that is built, and the
  auto-fill from leads.
- **The order list.** It covers the role view, search, status filter and
  newest-first sort. It also covers the admin-only status change and
  courier sync, and the CSV export.
- **The lead manager.** It covers pasting numbers as leads,
  serial-number range reassignment, and moderator names.
- **The moderator's lead agenda.** It covers the day tabs, the counters,
  the call / re-open toggle and the card order.
- **The dashboard figures.** These are status counts, money per status,
  revenue and the success rate.
- **The team screen.** It covers new moderator records, the 90-second
  online rule and call statistics.
- **The catalogue editor.** It covers new and edited products, and the
  edit / delete-confirm state.

## How the model is organised

There is one module per screen, plus a few shared modules:

- `Types` holds the records of `types.ts`.
- `Text` holds `trim`, ASCII case mapping, `includes`, `split`/`join` and
  the CSV quote doubling.
- `Numeric` holds decimal numerals and percentages rounded half up.
- `Lists` holds `filter`, counting and `find`.
- `Sorting` holds a stable insertion sort by a total preorder. This is
  what `Array.prototype.sort` does with a consistent comparator.

The code's own form is kept:

- **Classes.** The store, the order form and the catalogue editor are
  classes whose methods replace `seq` fields.
- **Remote writes.** The outcome of a remote write is the parameter `ok`.
- **Bulk reassignment.** It is a loop over an array copy.
- **Everything else.** The rest is pure functions with lemmas.

Values that come from outside the code are passed in as parameters:

- times (milliseconds);
- generated ids;
- parsed prices and range bounds;
- the courier's answer;
- the date formatting of the export.

Where the code and its type declarations differ, the model follows the
code. `types.ts` declares a `Lead` without `customerName` and `address`.
Yet the row mapping, the lead import and the order form's auto-fill all
read and write those fields, so the model's `Lead` has them. `createdAt`
is declared as an ISO string but is only ever compared as a time. The
model keeps it as a millisecond count.

## Model

| member | source | states |
|---|---|---|
| `Types.StatusLabel` | types.ts:2-7 | every status has a non-empty stored label |
| `Types.StatusLabelInjective` | types.ts:2-7 | distinct statuses have distinct labels, so a label filter selects one status |
| `Text.Trim` | components/OrderForm.tsx:74 | the trim is never longer than the input |
| `Text.TrimSpec` | components/OrderForm.tsx:74-78 | trim keeps one contiguous slice that neither starts nor ends with white space; the result is empty exactly when the input is all white space |
| `Text.TrimIdempotent` | components/OrderForm.tsx:100-107 | trimming a trimmed value changes nothing |
| `Text.TrimKeepsAll` | components/ProductManager.tsx:32 | whatever holds of every character of a text holds of every character of its trim |
| `Text.Lower` | components/OrderList.tsx:32-33 | same length, every ASCII capital mapped to its small letter and nothing else changed |
| `Text.Upper` | components/ProductManager.tsx:32 | same length, every ASCII small letter mapped to its capital and nothing else changed |
| `Text.LowerIdempotent` | components/ModeratorManager.tsx:25 | lower-casing twice is lower-casing once |
| `Text.UpperIdempotent` | components/ProductManager.tsx:32 | upper-casing twice is upper-casing once |
| `Text.LowerUpper` | components/ModeratorManager.tsx:25 | lower-casing forgets any earlier upper-casing |
| `Text.UpperTrimCommute` | components/ProductManager.tsx:32 | upper-casing before or after the trim gives the same SKU |
| `Text.LowerTrimCommute` | components/ModeratorManager.tsx:25 | lower-casing before or after the trim gives the same email |
| `Text.Contains` | components/OrderList.tsx:33 | `includes` holds exactly when the needle occurs at some position (the empty needle everywhere) |
| `Text.Split` | components/LeadManager.tsx:32 | splitting yields at least one piece and no piece holds a separator |
| `Text.SplitSeparatorFree` | components/LeadManager.tsx:32 | a text without a separator is one piece, itself |
| `Text.SplitAtSeparator` | components/LeadManager.tsx:32 | the text before the first separator is the first piece, followed by the pieces of the text after it; with `Text.SplitSeparatorFree` this fixes the pieces of every text |
| `Text.Join` | components/OrderList.tsx:93 | no pieces join to the empty text and one piece to itself |
| `Text.JoinStartsWithFirst` | components/OrderList.tsx:93 | the joined text starts with the first piece |
| `Text.JoinLength` | components/OrderList.tsx:93 | the joined text is as long as all pieces plus one separator between each two neighbours |
| `Text.SplitJoin` | components/LeadManager.tsx:32 | separator-free pieces joined by a separator split back into the same pieces |
| `Text.RemoveChar` | components/OrderList.tsx:91 | the result holds no instance of the removed character and every other character as often as before |
| `Text.RemoveAbsentChar` | components/OrderList.tsx:91 | removing a character the text lacks changes nothing |
| `Text.DoubleQuotes` | components/OrderList.tsx:98 | the escaped text is longer by exactly the number of quotes |
| `Text.QuotesRoundTrip` | components/OrderList.tsx:98-100 | a CSV reader undoing doubled quotes gets the original text back |
| `Text.UndoubleQuotesPlain` | components/OrderList.tsx:105 | a text without quotes reads back as itself |
| `Text.UndoubleQuotesCount` | components/OrderList.tsx:98-105 | a body that reads back holds twice as many quotes as the text it reads back as |
| `Text.LoneQuoteUnreadable` | components/OrderList.tsx:105 | every cell body holding an odd number of quotes fails to read back |
| `Numeric.NatToString` | components/OrderForm.tsx:90 | a non-empty string of digits, with no leading zero unless the number is 0 |
| `Numeric.NatToStringRoundTrip` | components/OrderForm.tsx:90 | reading the numeral back gives the number |
| `Numeric.NatToStringInjective` | components/OrderForm.tsx:90 | different line positions get different numerals, so item ids of one submission differ |
| `Numeric.IntToStringRoundTrip` | components/OrderList.tsx:102 | every whole amount is read back from its numeral, sign included |
| `Numeric.RoundedPercent` | components/Dashboard.tsx:39 | `Math.round(100 * part / whole)` for `part <= whole`: in 0..100, 0 for an empty whole, and within half a point of the exact ratio |
| `Numeric.RoundedPercentEnds` | components/ModeratorManager.tsx:49 | nothing is 0 % and everything is 100 % |
| `Sorting.Sort` | components/OrderList.tsx:40 | the sorted list is a permutation of its input |
| `Sorting.SortSorted` | components/OrderList.tsx:40 | with a total preorder, the result is in order and a permutation of the input |
| `Sorting.InsertSorted` | components/ModeratorLeads.tsx:80 | inserting into a sorted list keeps it sorted |
| `Sorting.InsertStable` | components/OrderList.tsx:40 | an inserted element lands before every element of the list tied with it, and the tied elements keep their order |
| `Sorting.SortStable` | components/OrderList.tsx:40 | the sort is stable: for every `x`, the elements tied with `x` come out in their input order |
| `Lists.Filter` | components/OrderList.tsx:29 | kept elements pass the test and come from the input, every passing input element is kept, and no element is kept more often than it occurs |
| `Lists.FilterAppend` | App.tsx:209 | filtering a joined list filters each part, so the kept elements stay in order |
| `Lists.FilterFilter` | components/OrderList.tsx:29-38 | two filters in a row are one filter by both tests |
| `Lists.CountSplit` | App.tsx:183 | the entries that pass a test and those that fail it add up to the list |
| `Lists.CountMonotone` | components/ModeratorLeads.tsx:34 | a stricter test never counts more |
| `Lists.FindFirst` | components/OrderForm.tsx:46 | `find` is absent exactly when no element passes; otherwise it is the element at the first passing position |
| `Store.TextOr` | App.tsx:79-81 | an absent text column reads as the empty string, a present one as itself |
| `Store.NonEmpty` | App.tsx:87-88 | an optional column is present exactly when it is there and not empty |
| `Store.MapOrderRow` | App.tsx:76-89 | missing name, phone, address and notes become empty, non-array items become no items, a missing total 0, an empty or missing consignment id or courier status absent |
| `Store.MapLeadRow` | App.tsx:91-100 | missing phone, name, address, moderator and date become empty; id, status and time are kept |
| `Store.MapModeratorRow` | App.tsx:102-109 | a moderator is active unless the stored flag is exactly false (so also when it is missing) |
| `Store.ProductsOnLoad` | App.tsx:73-74 | the stored products, or the built-in catalogue when there are none |
| `Store.OrdersOnLoad` | App.tsx:76 | no rows give no orders; otherwise each row is mapped, in order |
| `Store.LeadsOnLoad` | App.tsx:91 | no rows give no leads; otherwise each row is mapped, in order |
| `Store.ModeratorsOnLoad` | App.tsx:102 | no rows give no moderators; otherwise each row is mapped, in order |
| `Store.WithStatus` | App.tsx:170 | the status is the new one; consignment id and courier status are set exactly when courier data is given; every other field is kept |
| `Store.SetOrderStatus` | App.tsx:165-172 | only orders with the given id change, and each of those as `WithStatus` says; the length is kept |
| `Store.SetLeadStatus` | App.tsx:244 | only leads with the given id change, and only in their status |
| `Store.ReplaceProduct` | App.tsx:204 | every product with the edited id is replaced, all others kept, ids in place |
| `Store.Reassigned` | App.tsx:234 | the lead gets the moderator, the date and status new, and keeps everything else |
| `Store.ReassignedIdempotent` | App.tsx:234 | reassigning twice to the same moderator and day is reassigning once |
| `Store.ReassignLeads` | App.tsx:228-240 | every in-range index is reassigned, out-of-range indices are ignored, every other lead is unchanged and the length is kept |
| `Store.Store.Load` | App.tsx:73-112 | the four lists are the mapped rows, products falling back to the built-in catalogue |
| `Store.Store.CreateOrder` | App.tsx:153-161 | a successful insert puts the order at the front; a failed one leaves the list and is rethrown |
| `Store.Store.UpdateStatus` | App.tsx:165-172 | the order list becomes `SetOrderStatus` of the old one, whatever the write reports |
| `Store.Store.AddModerator` | App.tsx:174-178 | a successful insert appends the moderator; a failed one changes nothing |
| `Store.Store.DeleteModerator` | App.tsx:180-185 | only a confirmed and successful delete removes every moderator with the id |
| `Store.Store.AddProduct` | App.tsx:197-200 | a successful insert appends the product; a failed one changes nothing |
| `Store.Store.UpdateProduct` | App.tsx:202-205 | a successful update replaces the entries with that id; a failed one changes nothing |
| `Store.Store.DeleteProduct` | App.tsx:207-210 | a successful delete removes every product with the id; a failed one changes nothing |
| `Store.Store.AssignLeads` | App.tsx:212-226 | a successful insert appends the new leads in order; a failed one changes nothing and is rethrown |
| `Store.Store.BulkUpdateLeads` | App.tsx:228-240 | the lead list is reassigned at exactly the in-range indices; the length is kept |
| `Store.Store.UpdateLeadStatus` | App.tsx:242-245 | only after a successful write does the matching lead's status change |
| `Store.Store.DeleteLead` | App.tsx:247-250 | a successful delete removes every lead with the id; a failed one changes nothing |
| `Store.RemoveId` | App.tsx:183 | no entry with the deleted id survives |
| `Store.RemoveIdSpec` | App.tsx:207-210 | kept plus removed entries make up the list, every other entry survives, and a list without the id is unchanged |
| `Store.RemoveIdKeepsOrder` | App.tsx:249 | deleting by id keeps the survivors in their order |
| `OrderForm.FindProduct` | components/OrderForm.tsx:46 | none is found exactly when no product has the id; otherwise it is the first catalogue entry with the id |
| `OrderForm.StockLimit` | components/OrderForm.tsx:46-47 | the stock of the first product with the id when it has a stock figure; 9999 when it has none, and 9999 when no product has the id |
| `OrderForm.ClampQuantity` | components/OrderForm.tsx:49-56 | at least 1 even for a limit of 0, at most a positive limit, unchanged within 1..limit |
| `OrderForm.LineTotal` | components/OrderForm.tsx:62-63 | price times quantity for a known product, 0 for an unknown one |
| `OrderForm.CalculateTotal` | components/OrderForm.tsx:60-65 | the empty draft totals 0, and lines that each add a non-negative amount give a non-negative total |
| `OrderForm.TotalAppend` | components/OrderForm.tsx:60-65 | the total of two drafts laid end to end is the sum of their totals |
| `OrderForm.TotalOfUnknown` | components/OrderForm.tsx:60-65 | lines with unknown products add nothing, and the empty draft totals 0 |
| `OrderForm.WithoutIndex` | components/OrderForm.tsx:41-43 | exactly the line at the position is removed and the rest kept in order; an index outside the draft removes nothing |
| `OrderForm.ValidateSubmit` | components/OrderForm.tsx:70-83 | accepted exactly when there are lines, the trimmed phone has at least 11 characters, trimmed name and address are non-empty and no submission is running; the first failing check is the one reported |
| `OrderForm.ItemId` | components/OrderForm.tsx:90 | the id is `oi-`, the stamp and `-`, followed by a numeral that reads back as the line's position |
| `OrderForm.ItemIdInjective` | components/OrderForm.tsx:88-90 | two lines of one submission never get the same id |
| `OrderForm.ItemIdInjectiveAcrossStamps` | components/OrderForm.tsx:88-90 | with digit stamps, as clock readings are, equal ids have equal stamps and equal positions, so lines stamped at different times still get different ids |
| `OrderForm.BuildItems` | components/OrderForm.tsx:87-95 | one item per line with the line's product and quantity at the current price; none when a line's product is missing |
| `OrderForm.BuildOrder` | components/OrderForm.tsx:97-108 | pending, owned by the current user, trimmed text fields, the built items and the form's total as amount, no consignment |
| `OrderForm.ItemsSumMatchesTotal` | components/OrderForm.tsx:60-65 | line items that agree with the draft line by line sum to the draft's total |
| `OrderForm.BuiltOrderAmountIsItemsSum` | components/OrderForm.tsx:87-104 | a submitted order's amount equals the sum of price times quantity over its items |
| `OrderForm.MatchingLead` | components/OrderForm.tsx:24 | none exactly when no lead's number contains the trimmed phone; otherwise the first lead in the list whose number does |
| `OrderForm.AutoFilled` | components/OrderForm.tsx:22-33 | with fewer than 11 characters nothing changes; a field already filled is never overwritten; an empty field takes the matching lead's value when it has one |
| `OrderForm.SubmitOutcome` | components/OrderForm.tsx:67-124 | a failing check rejects with its reason; an order is created only when the checks pass, the order can be built and the insert succeeds, and then always |
| `OrderForm.Form.constructor` | components/OrderForm.tsx:13-18 | the form starts empty and not submitting |
| `OrderForm.Form.AddItem` | components/OrderForm.tsx:35-39 | with an empty catalogue nothing changes; otherwise exactly one line for the first product with quantity 1 is appended |
| `OrderForm.Form.RemoveItem` | components/OrderForm.tsx:41-43 | the draft loses exactly the line at the position |
| `OrderForm.Form.UpdateItem` | components/OrderForm.tsx:45-58 | the line at the position gets the product and the clamped quantity, at least 1; every other line is kept |
| `OrderForm.Form.AutoFill` | components/OrderForm.tsx:22-33 | name and address become `AutoFilled` of the typed phone and the old fields |
| `OrderForm.Form.Submit` | components/OrderForm.tsx:67-124 | the result is `SubmitOutcome`; fields are cleared only on creation; the submitting flag is down after any submission that passed the checks |
| `LeadManager.GetModName` | components/LeadManager.tsx:72 | `Unknown` when no moderator has the id; otherwise the name of the first moderator with the id, or `Unknown` when that name is empty |
| `LeadManager.ParseNumbers` | components/LeadManager.tsx:32 | every kept number has at least 10 characters |
| `LeadManager.PieceNumbers` | components/LeadManager.tsx:32 | a piece gives at most one number, its trim, and gives it exactly when the trim has at least 10 characters |
| `LeadManager.ParseNumbersOnePiece` | components/LeadManager.tsx:32 | a text without a newline or comma gives the number of its single piece, if any |
| `LeadManager.ParseNumbersStep` | components/LeadManager.tsx:32 | the text before the first newline or comma gives its number, if any, ahead of the numbers of the rest; with `LeadManager.ParseNumbersOnePiece` this fixes the result for every text |
| `LeadManager.ParsedNumbersTrimmed` | components/LeadManager.tsx:32 | every kept number is already trimmed |
| `LeadManager.ParsedNumbersHaveNoSeparator` | components/LeadManager.tsx:32 | no kept number holds a newline or comma |
| `LeadManager.ParseNumbersOfLines` | components/LeadManager.tsx:32 | clean numbers pasted one per line are imported exactly, in order |
| `LeadManager.DirectImport` | components/LeadManager.tsx:27-43 | refused exactly when the text is blank or no moderator or date is chosen; otherwise one new lead per kept number, each with the chosen moderator, date, trimmed name and address |
| `LeadManager.RangeIndices` | components/LeadManager.tsx:62 | `end - start + 1` indices, the i-th being `start - 1 + i` |
| `LeadManager.RangeIndicesSpec` | components/LeadManager.tsx:62 | the indices are exactly start-1..end-1, strictly ascending, none negative |
| `LeadManager.RangeSubmit` | components/LeadManager.tsx:56-64 | refused exactly when a bound is not a number, start is below 1, end is before start, or no moderator is chosen |
| `OrderList.RoleOk` | components/OrderList.tsx:29 | an admin sees every order; a moderator exactly the orders with their own id |
| `OrderList.SearchOk` | components/OrderList.tsx:31-34 | an empty search passes everything; otherwise an order passes exactly when the lower-cased term occurs in its phone, its lower-cased name or its lower-cased id |
| `OrderList.StatusOk` | components/OrderList.tsx:36-38 | `all` passes everything; a status filter passes exactly the orders with that status |
| `OrderList.Visible` | components/OrderList.tsx:28-38 | an admin with no search and no status filter sees everything; a visible order is the user's own unless the user is admin, and has the filtered status |
| `OrderList.NewerOrSame` | components/OrderList.tsx:40 | `a` may stand before `b` exactly when the comparator `b - a` is not positive, that is when `a` is not older |
| `OrderList.FilteredOrders` | components/OrderList.tsx:28-41 | the shown list is never longer than the input |
| `OrderList.FilterStages` | components/OrderList.tsx:29-38 | the three filter stages, each skipped when it does not apply, keep exactly the visible orders |
| `OrderList.FilteredOrdersSpec` | components/OrderList.tsx:28-41 | newest first, exactly the orders passing role, search and status, each as often as in the input |
| `OrderList.FilteredOrdersStable` | components/OrderList.tsx:40 | orders created at the same moment are shown in the order the store holds them |
| `OrderList.SearchById` | components/OrderList.tsx:32-33 | an order is found by its own id typed in any letter case |
| `OrderList.StatusChange` | components/OrderList.tsx:57-60 | only an admin's status change reaches the store, unchanged and without courier data |
| `OrderList.ManualSync` | components/OrderList.tsx:43-55 | an update exists exactly when the user is admin, the order has no consignment and the courier call succeeded; it confirms the order with the courier data |
| `OrderList.SyncApplied` | components/OrderList.tsx:43-55 | after a sync the order is confirmed with the consignment, others are untouched, and a second sync does nothing |
| `OrderList.InRange` | components/OrderList.tsx:66-74 | an order is exported exactly when it was created from the first millisecond of the start day up to the last millisecond of the end day |
| `OrderList.ExportSelection` | components/OrderList.tsx:65-74 | exactly the orders created from the first to the last millisecond of the chosen days, whatever the list filters |
| `OrderList.QuotedCell` | components/OrderList.tsx:98 | the cell is wrapped in quotes: it starts and ends with a quote |
| `OrderList.QuotedCellRoundTrip` | components/OrderList.tsx:98-100 | a spreadsheet reads a quoted cell back as exactly its text |
| `OrderList.CleanName` | components/OrderList.tsx:89-91 | no comma in the result; `Item` for an unknown product; a non-empty name without commas is kept as it is |
| `OrderList.SkuLabel` | components/OrderList.tsx:92 | never empty, and the product's SKU whenever it has one |
| `OrderList.ItemLabel` | components/OrderList.tsx:88-92 | the label starts with the cleaned product name and ends with `(x`, a numeral that reads back as the quantity, and `)` |
| `OrderList.ItemLabels` | components/OrderList.tsx:88-93 | one label per line item, in order |
| `OrderList.SteadfastCell` | components/OrderList.tsx:104 | the consignment id, or `NOT_SYNCED` when it is missing or empty |
| `OrderList.CsvRow` | components/OrderList.tsx:95-106 | every row has as many cells as the header, ten |
| `OrderList.CsvRowCells` | components/OrderList.tsx:95-106 | each of the ten cells in column order: the id, the formatted date, the quoted name, the phone behind an apostrophe, the quoted address, the item labels joined by a spaced vertical bar, in quotes, the amount's numeral, the upper-cased status, the consignment id or `NOT_SYNCED`, and the quoted moderator name |
| `OrderList.CsvRowPlainCells` | components/OrderList.tsx:96-99 | the first cell is the order id and the phone cell is the phone behind an apostrophe |
| `OrderList.CsvRowAmountCell` | components/OrderList.tsx:102 | the amount cell reads back as the order's total |
| `OrderList.CsvRowQuotedCells` | components/OrderList.tsx:98-100 | the name and address cells read back exactly, whatever quotes or commas they hold |
| `OrderList.CsvRowModeratorCell` | components/OrderList.tsx:105 | the moderator cell reads back as the moderator's name, or `Unknown`, when that name holds no quote |
| `OrderList.ModeratorQuoteBreaksCell` | components/OrderList.tsx:105 | every moderator name holding an odd number of quotes gives a cell that does not read back, since its quotes are not doubled |
| `OrderList.CsvLines` | components/OrderList.tsx:111 | the header line plus one line per exported order |
| `OrderList.ExportCsv` | components/OrderList.tsx:62-111 | no file exactly when no order falls in the days; a file always starts with the byte-order mark |
| `OrderList.HeaderLine` | components/OrderList.tsx:83 | the header line splits back into the ten header cells |
| `OrderList.ExportCsvLines` | components/OrderList.tsx:109-111 | when no cell holds a line break, the content after the mark splits into the header line and one line per exported order, in order |
| `ModeratorLeads.FilterLeads` | components/ModeratorLeads.tsx:27-31 | today's tab holds exactly today's leads, tomorrow's exactly tomorrow's, the all tab the list unchanged |
| `ModeratorLeads.Stats` | components/ModeratorLeads.tsx:33-37 | the total is the list length and the other counters never exceed it |
| `ModeratorLeads.StatsMatchTabs` | components/ModeratorLeads.tsx:27-37 | the today counter is the number of new leads on the today tab, so never more than the tab; the tomorrow counter equals the tomorrow tab; the total equals the all tab |
| `ModeratorLeads.Toggled` | components/ModeratorLeads.tsx:121 | the button always asks for the other status |
| `ModeratorLeads.ToggleInvolution` | components/ModeratorLeads.tsx:121 | asking twice returns to the first status |
| `ModeratorLeads.ToggleRequest` | components/ModeratorLeads.tsx:121 | the request names the lead and a status different from its current one |
| `ModeratorLeads.ToggleTwiceRestores` | components/ModeratorLeads.tsx:121 | pressing a card's button twice restores the list when leads sharing its id share its status |
| `ModeratorLeads.LexLess` | components/ModeratorLeads.tsx:80 | a text never comes before itself; a proper prefix comes first; otherwise a smaller first character comes first |
| `ModeratorLeads.LexLessIrreflexive` | components/ModeratorLeads.tsx:80 | no date comes before itself |
| `ModeratorLeads.LexLessAsymmetric` | components/ModeratorLeads.tsx:80 | two dates are never each before the other |
| `ModeratorLeads.LexLessTransitive` | components/ModeratorLeads.tsx:80 | date order is transitive |
| `ModeratorLeads.LexLessTotal` | components/ModeratorLeads.tsx:80 | any two different dates are ordered one way or the other |
| `ModeratorLeads.LaterOrSameDateIsPreorder` | components/ModeratorLeads.tsx:80 | the descending-date comparison is a total preorder, as a consistent sort needs |
| `ModeratorLeads.Cards` | components/ModeratorLeads.tsx:80 | as many cards as leads on the tab |
| `ModeratorLeads.CardsSpec` | components/ModeratorLeads.tsx:80 | the cards are a permutation of the tab's leads, latest day first |
| `ModeratorLeads.CardsStable` | components/ModeratorLeads.tsx:80 | leads of the same day keep their list order on the cards |
| `Dashboard.DisplayOrders` | components/Dashboard.tsx:16-19 | all orders for an admin; for a moderator exactly their own |
| `Dashboard.MyLeads` | components/Dashboard.tsx:17 | exactly the leads assigned to the user |
| `Dashboard.StatusCount` | components/Dashboard.tsx:33-36 | a count never exceeds the displayed orders |
| `Dashboard.StatusCountsPartition` | components/Dashboard.tsx:32-36 | the four status counts add up to the displayed total |
| `Dashboard.StatusValue` | components/Dashboard.tsx:22-26 | 0 when no order has the status, the whole revenue when every order has it |
| `Dashboard.TotalRevenue` | components/Dashboard.tsx:42 | no orders bring no revenue, and non-negative amounts give a non-negative revenue |
| `Dashboard.RevenueIsStatusValues` | components/Dashboard.tsx:22-45 | total revenue is the sum of the four per-status values |
| `Dashboard.StatusValueStep` | components/Dashboard.tsx:22-26 | a status value adds the first order's amount exactly when it has the status |
| `Dashboard.StatusValueBounded` | components/Dashboard.tsx:22-42 | with non-negative amounts each status value lies between 0 and the revenue |
| `Dashboard.NonNegativeSum` | components/Dashboard.tsx:42 | non-negative amounts sum to a non-negative revenue |
| `Dashboard.ConfirmationRate` | components/Dashboard.tsx:38-39 | 0 with no displayed orders; otherwise confirmed plus delivered as the nearest whole percentage, within 0..100 |
| `Dashboard.ConfirmationRateEnds` | components/Dashboard.tsx:38-39 | 100 when every displayed order succeeded, 0 when none did |
| `ModeratorManager.NewModerator` | components/ModeratorManager.tsx:18-28 | refused exactly when a raw field is empty; otherwise a moderator with trimmed name, lower-cased trimmed email and trimmed password |
| `ModeratorManager.BlankNameAccepted` | components/ModeratorManager.tsx:20-24 | a non-empty name passes the check, and the stored name is empty exactly when every character typed is white space |
| `ModeratorManager.EmailNormalised` | components/ModeratorManager.tsx:25 | the stored email is trimmed, in lower case, and the same whatever letter case was typed |
| `ModeratorManager.IsOnline` | components/ModeratorManager.tsx:37-41 | never seen is offline; otherwise online exactly when seen less than 90 000 ms ago |
| `ModeratorManager.OnlineMonotone` | components/ModeratorManager.tsx:37-41 | online now means online at every earlier time; 90 s after the last sighting a moderator is offline |
| `ModeratorManager.ModCallStats` | components/ModeratorManager.tsx:43-51 | the total is the moderator's lead count, completed never exceeds it, the percentage is 0 with no leads and otherwise the nearest whole percentage, within 0..100 |
| `ModeratorManager.CompletedAreCalledAndAssigned` | components/ModeratorManager.tsx:44-45 | completed counts exactly the moderator's called leads |
| `ModeratorManager.CallStatsEnds` | components/ModeratorManager.tsx:47-50 | all called is 100 %, none called is 0 % |
| `ProductManager.NormalSku` | components/ProductManager.tsx:32 | the stored SKU is never longer than the input and holds no small letter |
| `ProductManager.NormalSkuNoOuterSpace` | components/ProductManager.tsx:32 | the stored SKU neither starts nor ends with white space |
| `ProductManager.NormalSkuIsNormal` | components/ProductManager.tsx:32 | a stored SKU is trimmed and upper case, and normalising it again changes nothing |
| `ProductManager.NewProduct` | components/ProductManager.tsx:26-36 | refused exactly when name, price or SKU is empty before trimming; otherwise normalised SKU, trimmed name, stock 50 |
| `ProductManager.EditedProduct` | components/ProductManager.tsx:57-64 | refused exactly when a field is empty; otherwise the same id, normalised SKU and name, and no stock figure |
| `ProductManager.AddAndEditAgree` | components/ProductManager.tsx:26-64 | add and edit accept the same inputs and differ only in the stock figure |
| `ProductManager.Editor.constructor` | components/ProductManager.tsx:13-24 | empty form, panel closed, nothing being edited or deleted |
| `ProductManager.Editor.ToggleAdding` | components/ProductManager.tsx:86 | the add panel opens or closes |
| `ProductManager.Editor.Submit` | components/ProductManager.tsx:26-43 | the result is `NewProduct`; on success the form is emptied and the panel closed; a refusal changes nothing; never editing and confirming at once |
| `ProductManager.Editor.StartEditing` | components/ProductManager.tsx:45-51 | the product is being edited with its fields copied and no delete is pending |
| `ProductManager.Editor.CancelEditing` | components/ProductManager.tsx:53-55 | nothing is being edited |
| `ProductManager.Editor.SaveEdit` | components/ProductManager.tsx:57-66 | the result is `EditedProduct`; a valid save closes the edit, a refused one leaves it open |
| `ProductManager.Editor.TriggerDelete` | components/ProductManager.tsx:68-71 | the delete awaits confirmation and no edit is open |
| `ProductManager.Editor.FinalDelete` | components/ProductManager.tsx:73-76 | the given id is requested for deletion and the confirmation closes |
| `ProductManager.Editor.CancelDelete` | components/ProductManager.tsx:240 | no delete is pending |

## Left out

- Remote data-store reads and writes are not modelled. The outcome of each write is the parameter `ok`, and rows arrive already read. Also left out are the stored session, the presence heartbeat, the settings (courier configuration, logo), and login and logout (App.tsx:38-71, 114-136, 187-195). They are I/O or outside the core.
- The courier call `syncOrderWithCourier` is not part of this model. Its answer, or its failure, is the parameter of `OrderList.ManualSync`.
- Browser effects are left out: the file download, `alert`, `confirm`, timers, the clipboard and the `syncingId` / `isExporting` / `copiedId` / `autoFilled` flags. They are display only. The answer to `confirm` is the parameter `confirmed`.
- Clocks and date handling are left out: `Date.now`, ISO strings, `toLocaleDateString`, and the local-time `setHours` of the export bounds. The model takes the time of each order, `now`, the first millisecond of each chosen day, the `today` / `tomorrow` strings, and a `formatDate` function as inputs. The export's upper bound is the end day's first millisecond plus 24 hours less one millisecond. On a day when daylight saving changes, the local day is 23 or 25 hours long, and `setHours(23, 59, 59, 999)` then gives a different bound. An unparseable `lastSeen` is not modelled; such a moderator would show offline.
- Id generation from the clock and `Math.random` is not modelled. Ids are parameters, and nothing assumes they are unique.
- Floating point is left out. Prices and amounts are whole numbers. `parseFloat` and `parseInt` results are parameters, with `None` standing for `NaN` in the range form. `Math.round` is exact half-up rounding, which can differ from the float result at exact halves. `toLocaleString` is not modelled.
- Case mapping is ASCII only; `toLowerCase` / `toUpperCase` of other letters is not modelled. `localeCompare` is taken as code-point order, which agrees on the `YYYY-MM-DD` dates it compares.
- The built-in catalogue's content is a parameter of the load.
- JSX rendering is left out, as are the charts, the colour tables and the unused `getStatusCount` helper in the dashboard.
- `OrderForm.Form.UpdateItem` requires an existing position. The form calls it only for rendered lines. Writing past the end of a JavaScript array, which would leave holes, is not modelled.
- `OrderForm.BuildItems` takes one clock reading for all lines, while the code reads the clock once per line. `OrderForm.ItemIdInjectiveAcrossStamps` shows the ids stay distinct when the readings differ.
- `OrderForm.BuildItems` models the `find(...)!` of a line whose product has left the catalogue as a failed build. The code throws inside the `try`, so the submission fails.
- `OrderList.CsvRowModeratorCell` states the read-back only for names without quotes. The item summary and moderator cells are wrapped in quotes without doubling the quotes inside, as the code does. `OrderList.ModeratorQuoteBreaksCell` shows what a quote in a name does.
- `Store.Store.UpdateStatus` applies the change locally even when the write fails, as the code does. `Store.Store.BulkUpdateLeads` likewise ignores the results of its writes.
- The moderator form's own fields and its add panel are not modelled. `ModeratorManager.NewModerator` gives the record it hands to the store. Resetting the inputs afterwards is display state.
- Lengths are counted in characters, not in the UTF-16 code units the runtime counts. A character outside the Basic Multilingual Plane counts once here and twice there, which can move a text across the 11-character phone thresholds (OrderForm.tsx:23, 74) or the 10-character number threshold (LeadManager.tsx:32).
- Text.Trim: its own contract states only the length bound, to keep the many proofs that mention a trim cheap; `Text.TrimSpec` states the rest of what trimming does.
- Stock is not decremented when an order is created; the code does not do it either.
