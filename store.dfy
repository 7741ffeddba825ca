/** The application's client-side store: the four lists every screen reads,
    loaded from the data store's rows and changed by the handlers the screens
    call. A remote write is represented by its outcome, the parameter `ok`;
    most handlers change the local list only when the write succeeded. */
module Store {
  import opened Types
  import opened Lists

  /** What a handler that rethrows tells its caller. */
  datatype Outcome = Succeeded | Threw

  /** The `items` column, which may hold something other than an array. */
  datatype ItemsColumn = ItemArray(items: seq<OrderItem>) | NotAnArray

  /** A row of the `orders` table; absent columns are `None`. */
  datatype OrderRow = OrderRow(
    id: string,
    moderatorId: string,
    customerName: Option<string>,
    customerPhone: Option<string>,
    customerAddress: Option<string>,
    items: ItemsColumn,
    totalAmount: Option<int>,
    status: OrderStatus,
    createdAt: int,
    notes: Option<string>,
    steadfastId: Option<string>,
    courierStatus: Option<string>)

  /** A row of the `leads` table. */
  datatype LeadRow = LeadRow(
    id: string,
    phoneNumber: Option<string>,
    customerName: Option<string>,
    address: Option<string>,
    moderatorId: Option<string>,
    status: LeadStatus,
    assignedDate: Option<string>,
    createdAt: int)

  /** A row of the `moderators` table. */
  datatype ModeratorRow = ModeratorRow(
    id: string,
    name: string,
    email: string,
    role: UserRole,
    lastSeen: Option<int>,
    isActive: Option<bool>)

  /** A text column read with `|| ''`: absent and empty both give the empty string. */
  function TextOr(c: Option<string>): (r: string)
    ensures c.Some? ==> r == c.value
    ensures c.None? ==> r == ""
  {
    c.GetOr("")
  }

  /** An optional text column read with `? … : undefined`: the empty string
      counts as absent. */
  function NonEmpty(c: Option<string>): (r: Option<string>)
    ensures r.Some? <==> c.Some? && c.value != ""
    ensures r.Some? ==> r == c
  {
    if c.Some? && c.value != "" then c else None
  }

  function MapOrderRow(row: OrderRow): (o: Order)
    ensures o.id == row.id && o.moderatorId == row.moderatorId
    ensures o.customerName == TextOr(row.customerName)
    ensures o.customerPhone == TextOr(row.customerPhone)
    ensures o.customerAddress == TextOr(row.customerAddress)
    ensures o.notes == TextOr(row.notes)
    ensures o.items == (if row.items.ItemArray? then row.items.items else [])
    ensures o.totalAmount == (if row.totalAmount.Some? then row.totalAmount.value else 0)
    ensures o.status == row.status && o.createdAt == row.createdAt
    ensures o.steadfastId == NonEmpty(row.steadfastId)
    ensures o.courierStatus == NonEmpty(row.courierStatus)
  {
    Order(
      row.id, row.moderatorId,
      TextOr(row.customerName), TextOr(row.customerPhone), TextOr(row.customerAddress),
      if row.items.ItemArray? then row.items.items else [],
      row.totalAmount.GetOr(0),
      row.status, row.createdAt, TextOr(row.notes),
      NonEmpty(row.steadfastId), NonEmpty(row.courierStatus))
  }

  function MapLeadRow(row: LeadRow): (l: Lead)
    ensures l.id == row.id && l.status == row.status && l.createdAt == row.createdAt
    ensures l.phoneNumber == TextOr(row.phoneNumber) && l.moderatorId == TextOr(row.moderatorId)
    ensures l.customerName == TextOr(row.customerName) && l.address == TextOr(row.address)
    ensures l.assignedDate == TextOr(row.assignedDate)
  {
    Lead(row.id, TextOr(row.phoneNumber), TextOr(row.customerName), TextOr(row.address),
         TextOr(row.moderatorId), row.status, TextOr(row.assignedDate), row.createdAt)
  }

  /** A moderator is active unless the stored flag is exactly `false`. */
  function MapModeratorRow(row: ModeratorRow): (u: User)
    ensures u.id == row.id && u.name == row.name && u.email == row.email && u.role == row.role
    ensures u.lastSeen == row.lastSeen && u.password.None?
    ensures u.isActive == Some(row.isActive != Some(false))
    ensures row.isActive.None? ==> u.isActive == Some(true)
  {
    User(row.id, row.name, row.email, row.role, row.lastSeen, Some(row.isActive != Some(false)), None)
  }

  /** The catalogue on load: the stored products, or the built-in catalogue
      when the table is empty or could not be read. */
  function ProductsOnLoad(rows: Option<seq<Product>>, initial: seq<Product>): (r: seq<Product>)
    ensures rows.Some? && |rows.value| > 0 ==> r == rows.value
    ensures rows.None? || rows.value == [] ==> r == initial
  {
    if rows.Some? && |rows.value| > 0 then rows.value else initial
  }

  /** An order row list read with `|| []`, each row mapped. */
  function OrdersOnLoad(rows: Option<seq<OrderRow>>): (r: seq<Order>)
    ensures rows.None? ==> r == []
    ensures rows.Some? ==> |r| == |rows.value| && forall i :: 0 <= i < |r| ==> r[i] == MapOrderRow(rows.value[i])
  {
    if rows.None? then [] else seq(|rows.value|, i requires 0 <= i < |rows.value| => MapOrderRow(rows.value[i]))
  }

  function LeadsOnLoad(rows: Option<seq<LeadRow>>): (r: seq<Lead>)
    ensures rows.None? ==> r == []
    ensures rows.Some? ==> |r| == |rows.value| && forall i :: 0 <= i < |r| ==> r[i] == MapLeadRow(rows.value[i])
  {
    if rows.None? then [] else seq(|rows.value|, i requires 0 <= i < |rows.value| => MapLeadRow(rows.value[i]))
  }

  function ModeratorsOnLoad(rows: Option<seq<ModeratorRow>>): (r: seq<User>)
    ensures rows.None? ==> r == []
    ensures rows.Some? ==> |r| == |rows.value| && forall i :: 0 <= i < |r| ==> r[i] == MapModeratorRow(rows.value[i])
  {
    if rows.None? then [] else seq(|rows.value|, i requires 0 <= i < |rows.value| => MapModeratorRow(rows.value[i]))
  }

  /** The order `o` with a new status and, when courier data is given, the
      consignment id and courier status. */
  function WithStatus(o: Order, status: OrderStatus, courier: Option<CourierData>): (r: Order)
    ensures r.status == status
    ensures courier.Some? ==> r.steadfastId == Some(courier.value.id) && r.courierStatus == Some(courier.value.status)
    ensures courier.None? ==> r.steadfastId == o.steadfastId && r.courierStatus == o.courierStatus
    ensures r.(status := o.status, steadfastId := o.steadfastId, courierStatus := o.courierStatus) == o
  {
    match courier
    case Some(c) => o.(status := status, steadfastId := Some(c.id), courierStatus := Some(c.status))
    case None => o.(status := status)
  }

  /** The order list after a status update: only orders with the given id change. */
  function SetOrderStatus(os: seq<Order>, id: string, status: OrderStatus, courier: Option<CourierData>): (r: seq<Order>)
    ensures |r| == |os|
    ensures forall i :: 0 <= i < |os| && os[i].id != id ==> r[i] == os[i]
    ensures forall i :: 0 <= i < |os| && os[i].id == id ==> r[i] == WithStatus(os[i], status, courier)
  {
    seq(|os|, i requires 0 <= i < |os| => if os[i].id == id then WithStatus(os[i], status, courier) else os[i])
  }

  /** The lead list after a status change: only leads with the given id change,
      and only their status. */
  function SetLeadStatus(ls: seq<Lead>, id: string, status: LeadStatus): (r: seq<Lead>)
    ensures |r| == |ls|
    ensures forall i :: 0 <= i < |ls| && ls[i].id != id ==> r[i] == ls[i]
    ensures forall i :: 0 <= i < |ls| && ls[i].id == id ==> r[i].status == status && r[i].(status := ls[i].status) == ls[i]
  {
    seq(|ls|, i requires 0 <= i < |ls| => if ls[i].id == id then ls[i].(status := status) else ls[i])
  }

  /** The catalogue after an edit: every product with the edited id is replaced. */
  function ReplaceProduct(ps: seq<Product>, p: Product): (r: seq<Product>)
    ensures |r| == |ps|
    ensures forall i :: 0 <= i < |ps| ==> r[i].id == ps[i].id
    ensures forall i :: 0 <= i < |ps| && ps[i].id == p.id ==> r[i] == p
    ensures forall i :: 0 <= i < |ps| && ps[i].id != p.id ==> r[i] == ps[i]
  {
    seq(|ps|, i requires 0 <= i < |ps| => if ps[i].id == p.id then p else ps[i])
  }

  /** A lead handed to moderator `modId` for `date`, to be called again. */
  function Reassigned(l: Lead, modId: string, date: string): (r: Lead)
    ensures r.moderatorId == modId && r.assignedDate == date && r.status == New
    ensures r.id == l.id && r.phoneNumber == l.phoneNumber && r.customerName == l.customerName
    ensures r.address == l.address && r.createdAt == l.createdAt
  {
    l.(moderatorId := modId, assignedDate := date, status := New)
  }

  /** Reassigning twice to the same moderator and date is reassigning once. */
  lemma ReassignedIdempotent(l: Lead, modId: string, date: string)
    ensures Reassigned(Reassigned(l, modId, date), modId, date) == Reassigned(l, modId, date)
  {
  }

  /** The bulk reassignment on a copy of the list: each index that names an
      existing position is reassigned, other indices are ignored, and every
      other lead is left as it was. */
  method ReassignLeads(leads: seq<Lead>, indices: seq<int>, modId: string, date: string) returns (r: seq<Lead>)
    ensures |r| == |leads|
    ensures forall j :: 0 <= j < |leads| && j in indices ==> r[j] == Reassigned(leads[j], modId, date)
    ensures forall j :: 0 <= j < |leads| && j !in indices ==> r[j] == leads[j]
  {
    var list := new Lead[|leads|](j requires 0 <= j < |leads| => leads[j]);
    var k := 0;
    while k < |indices|
      invariant 0 <= k <= |indices|
      invariant list.Length == |leads|
      invariant forall j :: 0 <= j < |leads| && j in indices[..k] ==> list[j] == Reassigned(leads[j], modId, date)
      invariant forall j :: 0 <= j < |leads| && j !in indices[..k] ==> list[j] == leads[j]
    {
      var idx := indices[k];
      if 0 <= idx < list.Length {
        list[idx] := Reassigned(list[idx], modId, date);
      }
      assert indices[..k + 1] == indices[..k] + [idx];
      k := k + 1;
    }
    assert indices[..k] == indices;
    r := list[..];
  }

  class Store {
    var orders: seq<Order>
    var leads: seq<Lead>
    var products: seq<Product>
    var moderators: seq<User>

    /** The state after the initial load from the data store's rows. */
    constructor Load(
      productRows: Option<seq<Product>>, moderatorRows: Option<seq<ModeratorRow>>,
      orderRows: Option<seq<OrderRow>>, leadRows: Option<seq<LeadRow>>, initialProducts: seq<Product>)
      ensures products == ProductsOnLoad(productRows, initialProducts)
      ensures moderators == ModeratorsOnLoad(moderatorRows)
      ensures orders == OrdersOnLoad(orderRows)
      ensures leads == LeadsOnLoad(leadRows)
    {
      products := ProductsOnLoad(productRows, initialProducts);
      moderators := ModeratorsOnLoad(moderatorRows);
      orders := OrdersOnLoad(orderRows);
      leads := LeadsOnLoad(leadRows);
    }

    /** A created order goes to the front of the list once its insert
        succeeded; a failed insert leaves the list alone and is rethrown. */
    method CreateOrder(o: Order, ok: bool) returns (result: Outcome)
      modifies this`orders
      ensures result == (if ok then Succeeded else Threw)
      ensures ok ==> orders == [o] + old(orders)
      ensures !ok ==> orders == old(orders)
    {
      if ok {
        orders := [o] + orders;
        result := Succeeded;
      } else {
        result := Threw;
      }
    }

    /** A status change is applied to the local list whatever the write reports. */
    method UpdateStatus(orderId: string, status: OrderStatus, courier: Option<CourierData>)
      modifies this`orders
      ensures orders == SetOrderStatus(old(orders), orderId, status, courier)
    {
      orders := SetOrderStatus(orders, orderId, status, courier);
    }

    method AddModerator(m: User, ok: bool)
      modifies this`moderators
      ensures moderators == if ok then old(moderators) + [m] else old(moderators)
    {
      if ok {
        moderators := moderators + [m];
      }
    }

    /** Only a confirmed and successful delete removes the moderator. */
    method DeleteModerator(modId: string, confirmed: bool, ok: bool)
      modifies this`moderators
      ensures confirmed && ok ==> moderators == RemoveId(old(moderators), modId, (m: User) => m.id)
      ensures !(confirmed && ok) ==> moderators == old(moderators)
    {
      if confirmed && ok {
        moderators := RemoveId(moderators, modId, (m: User) => m.id);
      }
    }

    method AddProduct(p: Product, ok: bool)
      modifies this`products
      ensures products == if ok then old(products) + [p] else old(products)
    {
      if ok {
        products := products + [p];
      }
    }

    method UpdateProduct(p: Product, ok: bool)
      modifies this`products
      ensures products == if ok then ReplaceProduct(old(products), p) else old(products)
    {
      if ok {
        products := ReplaceProduct(products, p);
      }
    }

    method DeleteProduct(productId: string, ok: bool)
      modifies this`products
      ensures products == if ok then RemoveId(old(products), productId, (p: Product) => p.id) else old(products)
    {
      if ok {
        products := RemoveId(products, productId, (p: Product) => p.id);
      }
    }

    /** Imported leads are appended after a successful insert; a failed insert
        is rethrown and changes nothing. */
    method AssignLeads(newLeads: seq<Lead>, ok: bool) returns (result: Outcome)
      modifies this`leads
      ensures result == (if ok then Succeeded else Threw)
      ensures leads == if ok then old(leads) + newLeads else old(leads)
    {
      if ok {
        leads := leads + newLeads;
        result := Succeeded;
      } else {
        result := Threw;
      }
    }

    /** The range reassignment; the remote writes' results are not consulted. */
    method BulkUpdateLeads(indices: seq<int>, modId: string, date: string)
      modifies this`leads
      ensures |leads| == |old(leads)|
      ensures forall j :: 0 <= j < |leads| && j in indices ==> leads[j] == Reassigned(old(leads)[j], modId, date)
      ensures forall j :: 0 <= j < |leads| && j !in indices ==> leads[j] == old(leads)[j]
    {
      leads := ReassignLeads(leads, indices, modId, date);
    }

    method UpdateLeadStatus(leadId: string, status: LeadStatus, ok: bool)
      modifies this`leads
      ensures leads == if ok then SetLeadStatus(old(leads), leadId, status) else old(leads)
    {
      if ok {
        leads := SetLeadStatus(leads, leadId, status);
      }
    }

    method DeleteLead(leadId: string, ok: bool)
      modifies this`leads
      ensures leads == if ok then RemoveId(old(leads), leadId, (l: Lead) => l.id) else old(leads)
    {
      if ok {
        leads := RemoveId(leads, leadId, (l: Lead) => l.id);
      }
    }
  }

  /** The entries of `s` whose id, read by `key`, is not `id`: what a delete
      by id leaves in the local list. */
  function RemoveId<T>(s: seq<T>, id: string, key: T -> string): (r: seq<T>)
    ensures forall i :: 0 <= i < |r| ==> key(r[i]) != id
  {
    Filter(s, (x: T) => key(x) != id)
  }

  /** A delete by id removes exactly the entries carrying that id: the kept and
      the removed entries add up to the list, and a list without the id is
      left as it is. */
  lemma RemoveIdSpec<T>(s: seq<T>, id: string, key: T -> string)
    ensures |RemoveId(s, id, key)| + Count(s, (x: T) => key(x) == id) == |s|
    ensures forall i :: 0 <= i < |s| && key(s[i]) != id ==> s[i] in RemoveId(s, id, key)
    ensures (forall i :: 0 <= i < |s| ==> key(s[i]) != id) ==> RemoveId(s, id, key) == s
  {
    CountSplit(s, (x: T) => key(x) != id, (x: T) => key(x) == id);
    if forall i :: 0 <= i < |s| ==> key(s[i]) != id {
      FilterAll(s, (x: T) => key(x) != id);
    }
  }

  /** A delete by id keeps the surviving entries in their order: deleting
      from a joined list is deleting from each part. */
  lemma RemoveIdKeepsOrder<T>(a: seq<T>, b: seq<T>, id: string, key: T -> string)
    ensures RemoveId(a + b, id, key) == RemoveId(a, id, key) + RemoveId(b, id, key)
    ensures forall x :: RemoveId([x], id, key) == if key(x) == id then [] else [x]
  {
    FilterAppend(a, b, (x: T) => key(x) != id);
  }
}
