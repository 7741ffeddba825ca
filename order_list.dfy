/** The order list: the orders a user may see, narrowed by a search term and a
    status, newest first; the guards on status changes and courier sync; and
    the CSV export of the orders created in a range of days. */
module OrderList {
  import opened Types
  import opened Lists
  import opened Text
  import opened Sorting
  import Numeric
  import Store
  import OrderForm
  import LeadManager

  /** The status drop-down: every status, or exactly one. */
  datatype StatusFilter = AllStatuses | OnlyStatus(status: OrderStatus)

  /** Admins see every order, moderators their own. */
  function RoleOk(o: Order, user: User): (r: bool)
    ensures user.role == Admin ==> r
    ensures user.role != Admin ==> (r <==> o.moderatorId == user.id)
  {
    user.role == Admin || o.moderatorId == user.id
  }

  /** The phone holds the lower-cased term as typed, or the lower-cased name
      or id holds it. An empty term matches everything. */
  function SearchOk(o: Order, term: string): (r: bool)
    ensures term == [] ==> r
    ensures term != [] ==> (r <==> exists i :: OccursAt(o.customerPhone, Lower(term), i)
                                    || OccursAt(Lower(o.customerName), Lower(term), i)
                                    || OccursAt(Lower(o.id), Lower(term), i))
  {
    var s := Lower(term);
    term == [] || Contains(o.customerPhone, s) || Contains(Lower(o.customerName), s) || Contains(Lower(o.id), s)
  }

  function StatusOk(o: Order, filter: StatusFilter): (r: bool)
    ensures filter.AllStatuses? ==> r
    ensures filter.OnlyStatus? ==> (r <==> o.status == filter.status)
  {
    filter.AllStatuses? || o.status == filter.status
  }

  /** An order passes all three filters of the list. With no search term and
      every status, an admin sees every order; a shown order always belongs
      to the user unless the user is an admin, and has the chosen status. */
  function Visible(o: Order, user: User, term: string, filter: StatusFilter): (r: bool)
    ensures user.role == Admin && term == [] && filter.AllStatuses? ==> r
    ensures r ==> (user.role == Admin || o.moderatorId == user.id)
    ensures r && filter.OnlyStatus? ==> o.status == filter.status
  {
    RoleOk(o, user) && SearchOk(o, term) && StatusOk(o, filter)
  }

  function RoleTest(user: User): Order -> bool {
    (o: Order) => RoleOk(o, user)
  }

  function SearchTest(term: string): Order -> bool {
    (o: Order) => SearchOk(o, term)
  }

  function StatusTest(filter: StatusFilter): Order -> bool {
    (o: Order) => StatusOk(o, filter)
  }

  function VisibleTest(user: User, term: string, filter: StatusFilter): Order -> bool {
    (o: Order) => Visible(o, user, term, filter)
  }

  /** `a` was created no earlier than `b`, so it may be listed before it. */
  function NewerOrSame(a: Order, b: Order): (r: bool)
    ensures r <==> b.createdAt - a.createdAt <= 0
  {
    a.createdAt >= b.createdAt
  }

  lemma NewestFirstIsPreorder()
    ensures TotalPreorder(NewerOrSame)
  {
  }

  /** The list as shown: role view, then the search (only for a non-empty
      term), then the status filter (unless all statuses), sorted newest
      first. Orders created at the same time keep their relative order. */
  function FilteredOrders(orders: seq<Order>, user: User, term: string, filter: StatusFilter): (r: seq<Order>)
    ensures |r| <= |orders|
  {
    var byRole := if user.role == Admin then orders else Filter(orders, RoleTest(user));
    var bySearch := if term != [] then Filter(byRole, SearchTest(term)) else byRole;
    var byStatus := if filter.OnlyStatus? then Filter(bySearch, StatusTest(filter)) else bySearch;
    Sort(byStatus, NewerOrSame)
  }

  /** The three filter stages together keep exactly the visible orders. */
  lemma StagesFilterVisible(orders: seq<Order>, user: User, term: string, filter: StatusFilter)
    ensures Filter(Filter(Filter(orders, RoleTest(user)), SearchTest(term)), StatusTest(filter))
      == Filter(orders, VisibleTest(user, term, filter))
  {
    var both := (o: Order) => RoleOk(o, user) && SearchOk(o, term);
    FilterFilter(orders, RoleTest(user), SearchTest(term), both);
    FilterFilter(orders, both, StatusTest(filter), VisibleTest(user, term, filter));
  }

  /** The unsorted list: each stage is a filter by its test, a stage that is
      skipped keeping everything. */
  lemma FilterStages(orders: seq<Order>, user: User, term: string, filter: StatusFilter)
    ensures var byRole := if user.role == Admin then orders else Filter(orders, RoleTest(user));
      var bySearch := if term != [] then Filter(byRole, SearchTest(term)) else byRole;
      var byStatus := if filter.OnlyStatus? then Filter(bySearch, StatusTest(filter)) else bySearch;
      byStatus == Filter(orders, VisibleTest(user, term, filter))
  {
    var byRole := if user.role == Admin then orders else Filter(orders, RoleTest(user));
    var bySearch := if term != [] then Filter(byRole, SearchTest(term)) else byRole;
    var byStatus := if filter.OnlyStatus? then Filter(bySearch, StatusTest(filter)) else bySearch;
    if user.role == Admin {
      FilterAll(orders, RoleTest(user));
    }
    if term == [] {
      FilterAll(byRole, SearchTest(term));
    }
    if filter.AllStatuses? {
      FilterAll(bySearch, StatusTest(filter));
    }
    StagesFilterVisible(orders, user, term, filter);
  }

  /** The shown list is newest first and holds exactly the orders that pass
      all filters, each as often as in the input. */
  lemma FilteredOrdersSpec(orders: seq<Order>, user: User, term: string, filter: StatusFilter)
    ensures SortedBy(FilteredOrders(orders, user, term, filter), NewerOrSame)
    ensures multiset(FilteredOrders(orders, user, term, filter)) == multiset(Filter(orders, VisibleTest(user, term, filter)))
    ensures forall i :: 0 <= i < |FilteredOrders(orders, user, term, filter)| ==>
      Visible(FilteredOrders(orders, user, term, filter)[i], user, term, filter)
    ensures forall i :: 0 <= i < |orders| && Visible(orders[i], user, term, filter) ==>
      orders[i] in FilteredOrders(orders, user, term, filter)
  {
    var test := VisibleTest(user, term, filter);
    var kept := Filter(orders, test);
    FilterStages(orders, user, term, filter);
    var r := FilteredOrders(orders, user, term, filter);
    assert r == Sort(kept, NewerOrSame);
    NewestFirstIsPreorder();
    SortSorted(kept, NewerOrSame);
    SameElementsAsFilter(orders, test, r);
  }
  /** Orders created at the same moment keep the order in which the store
      holds them. */
  lemma FilteredOrdersStable(orders: seq<Order>, user: User, term: string, filter: StatusFilter, x: Order)
    ensures Filter(FilteredOrders(orders, user, term, filter), TiedWith(NewerOrSame, x))
      == Filter(Filter(orders, VisibleTest(user, term, filter)), TiedWith(NewerOrSame, x))
  {
    var kept := Filter(orders, VisibleTest(user, term, filter));
    FilterStages(orders, user, term, filter);
    assert FilteredOrders(orders, user, term, filter) == Sort(kept, NewerOrSame);
    NewestFirstIsPreorder();
    SortStable(kept, NewerOrSame, x);
  }


  /** An order is found by its own id typed in any letter case. */
  lemma SearchById(o: Order, term: string)
    requires Lower(term) == Lower(o.id)
    ensures SearchOk(o, term)
  {
    assert OccursAt(Lower(o.id), Lower(term), 0);
  }

  /** A status change for the store to apply. */
  datatype StatusUpdate = StatusUpdate(orderId: string, status: OrderStatus, courier: Option<CourierData>)

  /** The status drop-down: only an admin's choice reaches the store. */
  function StatusChange(isAdmin: bool, orderId: string, status: OrderStatus): (r: Option<StatusUpdate>)
    ensures r.Some? <==> isAdmin
    ensures r.Some? ==> r.value == StatusUpdate(orderId, status, None)
  {
    if !isAdmin then None else Some(StatusUpdate(orderId, status, None))
  }

  /** The order already carries a consignment id (an empty id does not count). */
  predicate HasConsignment(o: Order) {
    o.steadfastId.Some? && o.steadfastId.value != []
  }

  /** Manual courier sync. `courierResult` is what the courier service returned,
      `None` when the call failed. Only an admin may sync, and only an order
      without a consignment; a successful sync confirms the order and records
      the consignment. */
  function ManualSync(isAdmin: bool, order: Order, courierResult: Option<CourierData>): (r: Option<StatusUpdate>)
    ensures r.Some? <==> isAdmin && !HasConsignment(order) && courierResult.Some?
    ensures r.Some? ==> r.value == StatusUpdate(order.id, Confirmed, courierResult)
  {
    if !isAdmin || HasConsignment(order) then None
    else match courierResult
      case None => None
      case Some(d) => Some(StatusUpdate(order.id, Confirmed, Some(d)))
  }

  /** Applying a successful sync confirms the synced order and records its
      consignment, leaves every other order alone, and a second sync of the
      synced order does nothing when the consignment id is not empty. */
  lemma SyncApplied(isAdmin: bool, orders: seq<Order>, k: nat, d: CourierData, again: Option<CourierData>)
    requires k < |orders| && isAdmin && !HasConsignment(orders[k])
    ensures ManualSync(isAdmin, orders[k], Some(d)).Some?
    ensures var u := ManualSync(isAdmin, orders[k], Some(d)).value;
      var after := Store.SetOrderStatus(orders, u.orderId, u.status, u.courier);
      && after[k].status == Confirmed
      && after[k].steadfastId == Some(d.id) && after[k].courierStatus == Some(d.status)
      && (forall i :: 0 <= i < |orders| && orders[i].id != orders[k].id ==> after[i] == orders[i])
      && (d.id != [] ==> ManualSync(isAdmin, after[k], again).None?)
  {
  }

  /** The milliseconds in a day, and the last of them counted from the first. */
  const MsPerDay := 86_400_000
  const LastMsOfDay := 86_399_999

  /** Created from the first millisecond of the start day to the last
      millisecond of the end day, both days given by their first millisecond. */
  function InRange(o: Order, startDay: int, endDay: int): (r: bool)
    ensures r <==> startDay <= o.createdAt < endDay + MsPerDay
  {
    startDay <= o.createdAt <= endDay + LastMsOfDay
  }

  /** The orders of the export: those created from the first millisecond of
      the start day to the last millisecond of the end day, in list order,
      whatever the search or status filter. */
  function ExportSelection(orders: seq<Order>, startDay: int, endDay: int): (r: seq<Order>)
    ensures forall i :: 0 <= i < |r| ==> InRange(r[i], startDay, endDay) && r[i] in orders
    ensures forall i :: 0 <= i < |orders| && InRange(orders[i], startDay, endDay) ==> orders[i] in r
    ensures multiset(r) <= multiset(orders)
  {
    Filter(orders, (o: Order) => InRange(o, startDay, endDay))
  }

  /** The header cells of the sheet. */
  const Header: seq<string> := ["Order ID", "Date", "Customer Name", "Phone", "Address", "Items Ordered", "Total Amount", "Status", "Steadfast ID", "Moderator"]

  /** A cell wrapped in quotes with every quote inside doubled. */
  function QuotedCell(s: string): (r: string)
    ensures |r| >= 2 && r[0] == '"' && r[|r| - 1] == '"'
  {
    "\"" + DoubleQuotes(s) + "\""
  }

  /** How a spreadsheet reads a quoted cell: the text between the outer
      quotes with doubled quotes undone; `None` when it is not one cell. */
  function ReadQuotedCell(c: string): (r: Option<string>)
  {
    if |c| >= 2 && c[0] == '"' && c[|c| - 1] == '"' then UndoubleQuotes(c[1..|c| - 1]) else None
  }

  /** A quoted cell reads back as the text it was made from. */
  lemma QuotedCellRoundTrip(s: string)
    ensures ReadQuotedCell(QuotedCell(s)) == Some(s)
  {
    var c := QuotedCell(s);
    assert c[1..|c| - 1] == DoubleQuotes(s);
    QuotesRoundTrip(s);
  }

  /** The product name in an item label: the name, or `Item` for an unknown
      product or an empty name, with every comma removed. */
  function CleanName(p: Option<Product>): (r: string)
    ensures ',' !in r
    ensures p.Some? && p.value.name != [] && ',' !in p.value.name ==> r == p.value.name
    ensures p.None? ==> r == "Item"
  {
    if p.Some? && p.value.name != [] then
      if ',' !in p.value.name then RemoveAbsentChar(p.value.name, ','); p.value.name
      else RemoveChar(p.value.name, ',')
    else
      RemoveAbsentChar("Item", ',');
      "Item"
  }

  /** The SKU in an item label: the SKU, or `N/A` for an unknown product or an empty SKU. */
  function SkuLabel(p: Option<Product>): (r: string)
    ensures r != []
    ensures p.Some? && p.value.sku != [] ==> r == p.value.sku
  {
    if p.Some? && p.value.sku != [] then p.value.sku else "N/A"
  }

  /** One item of the summary: `name [sku] (xquantity)`. It starts with the
      cleaned name and ends with the quantity, which reads back, in
      parentheses. */
  function ItemLabel(it: OrderItem, products: seq<Product>): (r: string)
    ensures var name := CleanName(OrderForm.FindProduct(products, it.productId));
      |r| > |name| && r[..|name|] == name
    ensures var q := Numeric.IntToString(it.quantity);
      && |r| >= |q| + 3 && r[|r| - |q| - 3..|r| - |q| - 1] == "(x" && r[|r| - 1] == ')'
      && Numeric.ReadInt(r[|r| - |q| - 1..|r| - 1]) == Some(it.quantity)
  {
    var p := OrderForm.FindProduct(products, it.productId);
    Numeric.IntToStringRoundTrip(it.quantity);
    Label(CleanName(p), SkuLabel(p), Numeric.IntToString(it.quantity))
  }

  function Label(name: string, sku: string, q: string): (r: string)
    ensures |r| > |name| && r[..|name|] == name
    ensures |r| >= |q| + 3 && r[|r| - |q| - 3..|r| - |q| - 1] == "(x" && r[|r| - 1] == ')'
    ensures r[|r| - |q| - 1..|r| - 1] == q
  {
    var r := name + " [" + sku + "] " + "(x" + q + ")";
    assert r[..|name|] == name;
    assert r[|r| - |q| - 3..|r| - |q| - 1] == "(x";
    assert r[|r| - |q| - 1..|r| - 1] == q;
    r
  }

  function ItemLabels(items: seq<OrderItem>, products: seq<Product>): (r: seq<string>)
    ensures |r| == |items|
    ensures forall i :: 0 <= i < |items| ==> r[i] == ItemLabel(items[i], products)
  {
    seq(|items|, i requires 0 <= i < |items| => ItemLabel(items[i], products))
  }

  /** The consignment cell: the id, or `NOT_SYNCED` when there is none or it is empty. */
  function SteadfastCell(o: Order): (r: string)
    ensures HasConsignment(o) ==> r == o.steadfastId.value
    ensures !HasConsignment(o) ==> r == "NOT_SYNCED"
  {
    if HasConsignment(o) then o.steadfastId.value else "NOT_SYNCED"
  }

  /** The ten cells of one exported order. The item summary and the
      moderator name are wrapped in quotes without doubling the quotes in
      them. `formatDate` renders the creation time as a day. */
  function CsvRow(o: Order, products: seq<Product>, moderators: seq<User>, formatDate: int -> string): (r: seq<string>)
    ensures |r| == |Header|
  {
    Row(o.id,
        formatDate(o.createdAt),
        QuotedCell(o.customerName),
        "'" + o.customerPhone,
        QuotedCell(o.customerAddress),
        "\"" + Join(" | ", ItemLabels(o.items, products)) + "\"",
        Numeric.IntToString(o.totalAmount),
        Upper(StatusLabel(o.status)),
        SteadfastCell(o),
        "\"" + LeadManager.GetModName(moderators, o.moderatorId) + "\"")
  }

  /** Ten cells in column order. */
  function Row(c0: string, c1: string, c2: string, c3: string, c4: string,
               c5: string, c6: string, c7: string, c8: string, c9: string): (r: seq<string>)
    ensures |r| == 10
    ensures r[0] == c0 && r[1] == c1 && r[2] == c2 && r[3] == c3 && r[4] == c4
    ensures r[5] == c5 && r[6] == c6 && r[7] == c7 && r[8] == c8 && r[9] == c9
  {
    [c0, c1, c2, c3, c4, c5, c6, c7, c8, c9]
  }

  /** What each of the ten cells of a row holds, in terms of the order. */
  lemma CsvRowCells(o: Order, products: seq<Product>, moderators: seq<User>, formatDate: int -> string)
    ensures var r := CsvRow(o, products, moderators, formatDate);
      && r[0] == o.id
      && r[1] == formatDate(o.createdAt)
      && r[2] == QuotedCell(o.customerName)
      && r[3] == "'" + o.customerPhone
      && r[4] == QuotedCell(o.customerAddress)
      && r[5] == "\"" + Join(" | ", ItemLabels(o.items, products)) + "\""
      && r[6] == Numeric.IntToString(o.totalAmount)
      && r[7] == Upper(StatusLabel(o.status))
      && (HasConsignment(o) ==> r[8] == o.steadfastId.value)
      && (!HasConsignment(o) ==> r[8] == "NOT_SYNCED")
      && r[9] == "\"" + LeadManager.GetModName(moderators, o.moderatorId) + "\""
  {
  }

  /** What a spreadsheet reads from a row: the id as is and the phone
      behind an apostrophe. */
  lemma CsvRowPlainCells(o: Order, products: seq<Product>, moderators: seq<User>, formatDate: int -> string)
    ensures CsvRow(o, products, moderators, formatDate)[0] == o.id
    ensures CsvRow(o, products, moderators, formatDate)[3][0] == '\''
    ensures CsvRow(o, products, moderators, formatDate)[3][1..] == o.customerPhone
  {
    CsvRowCells(o, products, moderators, formatDate);
    var phone := "'" + o.customerPhone;
    assert phone[1..] == o.customerPhone;
  }

  /** The amount cell reads back as the order's total. */
  lemma CsvRowAmountCell(o: Order, products: seq<Product>, moderators: seq<User>, formatDate: int -> string)
    ensures Numeric.ReadInt(CsvRow(o, products, moderators, formatDate)[6]) == Some(o.totalAmount)
  {
    CsvRowCells(o, products, moderators, formatDate);
    Numeric.IntToStringRoundTrip(o.totalAmount);
  }

  /** The name and address cells read back exactly, whatever quotes or
      commas they hold. */
  lemma CsvRowQuotedCells(o: Order, products: seq<Product>, moderators: seq<User>, formatDate: int -> string)
    ensures ReadQuotedCell(CsvRow(o, products, moderators, formatDate)[2]) == Some(o.customerName)
    ensures ReadQuotedCell(CsvRow(o, products, moderators, formatDate)[4]) == Some(o.customerAddress)
  {
    CsvRowCells(o, products, moderators, formatDate);
    QuotedCellRoundTrip(o.customerName);
    QuotedCellRoundTrip(o.customerAddress);
  }

  /** The moderator cell reads back as the moderator's name (or `Unknown`)
      only when that name holds no quote, as the quotes in it are not doubled. */
  lemma CsvRowModeratorCell(o: Order, products: seq<Product>, moderators: seq<User>, formatDate: int -> string)
    requires '"' !in LeadManager.GetModName(moderators, o.moderatorId)
    ensures ReadQuotedCell(CsvRow(o, products, moderators, formatDate)[9]) == Some(LeadManager.GetModName(moderators, o.moderatorId))
  {
    var m := LeadManager.GetModName(moderators, o.moderatorId);
    var c := "\"" + m + "\"";
    CsvRowCells(o, products, moderators, formatDate);
    assert c[1..|c| - 1] == m;
    UndoubleQuotesPlain(m);
  }

  /** A moderator name with an odd number of quotes in it, a single quote
      among them, gives a moderator cell that does not read back as one
      cell, since its quotes are not doubled. */
  lemma ModeratorQuoteBreaksCell(o: Order, products: seq<Product>, moderators: seq<User>, formatDate: int -> string)
    ensures multiset(LeadManager.GetModName(moderators, o.moderatorId))['"'] % 2 == 1
      ==> ReadQuotedCell(CsvRow(o, products, moderators, formatDate)[9]) == None
  {
    var m := LeadManager.GetModName(moderators, o.moderatorId);
    var c := "\"" + m + "\"";
    CsvRowCells(o, products, moderators, formatDate);
    assert c[1..|c| - 1] == m;
    LoneQuoteUnreadable(m);
  }

  /** The lines of the sheet: the header line, then one line per exported order. */
  function CsvLines(data: seq<Order>, products: seq<Product>, moderators: seq<User>, formatDate: int -> string): (r: seq<string>)
    ensures |r| == |data| + 1
  {
    [Join(",", Header)] + seq(|data|, i requires 0 <= i < |data| => CsvLine(data[i], products, moderators, formatDate))
  }

  /** The line of one exported order: its cells joined by commas. */
  function CsvLine(o: Order, products: seq<Product>, moderators: seq<User>, formatDate: int -> string): string {
    Join(",", CsvRow(o, products, moderators, formatDate))
  }

  /** The byte-order mark that makes spreadsheets read the file as UTF-8. */
  const Bom := '\U{FEFF}'

  /** The file content for the chosen days, or `None` (no file) when no order
      was created in them. */
  function ExportCsv(
    orders: seq<Order>, products: seq<Product>, moderators: seq<User>,
    startDay: int, endDay: int, formatDate: int -> string): (r: Option<string>)
    ensures r.None? <==> forall i :: 0 <= i < |orders| ==> !InRange(orders[i], startDay, endDay)
    ensures r.Some? ==> |r.value| >= 1 && r.value[0] == Bom
  {
    var data := ExportSelection(orders, startDay, endDay);
    if data == [] then
      assert forall i :: 0 <= i < |orders| ==> !InRange(orders[i], startDay, endDay);
      None
    else
      assert data[0] in orders;
      Some([Bom] + Join("\n", CsvLines(data, products, moderators, formatDate)))
  }

  predicate IsComma(c: char) {
    c == ','
  }

  predicate IsLineBreak(c: char) {
    c == '\n'
  }

  /** The header line splits back into the ten header cells. */
  lemma HeaderLine()
    ensures Split(Join(",", Header), IsComma) == Header
  {
    assert "," == [','];
    SplitJoin(Header, ',', IsComma);
  }

  /** When no cell holds a line break, the content after the byte-order mark
      splits at line breaks into the header line and then one line per
      exported order, in list order. */
  lemma ExportCsvLines(
    orders: seq<Order>, products: seq<Product>, moderators: seq<User>,
    startDay: int, endDay: int, formatDate: int -> string)
    requires ExportCsv(orders, products, moderators, startDay, endDay, formatDate).Some?
    requires var lines := CsvLines(ExportSelection(orders, startDay, endDay), products, moderators, formatDate);
      forall k, j :: 0 <= k < |lines| && 0 <= j < |lines[k]| ==> lines[k][j] != '\n'
    ensures var content := ExportCsv(orders, products, moderators, startDay, endDay, formatDate).value;
      var data := ExportSelection(orders, startDay, endDay);
      var lines := Split(content[1..], IsLineBreak);
      && |lines| == |data| + 1
      && lines[0] == Join(",", Header)
      && forall i :: 0 <= i < |data| ==> lines[i + 1] == Join(",", CsvRow(data[i], products, moderators, formatDate))
  {
    var data := ExportSelection(orders, startDay, endDay);
    var lines := CsvLines(data, products, moderators, formatDate);
    ExportContent(orders, products, moderators, startDay, endDay, formatDate);
    SplitJoin(lines, '\n', IsLineBreak);
  }

  /** Past the byte-order mark, the file is the lines joined by line breaks. */
  lemma ExportContent(
    orders: seq<Order>, products: seq<Product>, moderators: seq<User>,
    startDay: int, endDay: int, formatDate: int -> string)
    requires ExportCsv(orders, products, moderators, startDay, endDay, formatDate).Some?
    ensures ExportCsv(orders, products, moderators, startDay, endDay, formatDate).value[1..]
      == Join(['\n'], CsvLines(ExportSelection(orders, startDay, endDay), products, moderators, formatDate))
  {
    var content := ExportCsv(orders, products, moderators, startDay, endDay, formatDate).value;
    var body := Join("\n", CsvLines(ExportSelection(orders, startDay, endDay), products, moderators, formatDate));
    assert content == [Bom] + body;
    assert "\n" == ['\n'];
  }
}
