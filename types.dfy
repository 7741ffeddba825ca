/** The records the dashboard works on: orders, leads, products and users.
    Times are milliseconds since the epoch, money is a whole number of taka,
    identifiers and free text are strings. */
module Types {

  datatype Option<+T> = None | Some(value: T) {
    /** The value, or `default` when absent. */
    function GetOr(default: T): T {
      match this
      case Some(v) => v
      case None => default
    }
  }

  /** The four states of an order; no other value exists. */
  datatype OrderStatus = Pending | Confirmed | Delivered | Cancelled

  datatype UserRole = Admin | Moderator

  /** A lead is either still to be called or already called. */
  datatype LeadStatus = New | Called

  /** A staff account. `isActive` and `password` are only present on some
      records: rows loaded from the store carry the flag, records created in
      the moderator form carry the password. */
  datatype User = User(
    id: string,
    name: string,
    email: string,
    role: UserRole,
    lastSeen: Option<int>,
    isActive: Option<bool>,
    password: Option<string>)

  datatype Product = Product(id: string, sku: string, name: string, price: int, stock: Option<int>)

  datatype OrderItem = OrderItem(id: string, productId: string, quantity: int, price: int)

  datatype Lead = Lead(
    id: string,
    phoneNumber: string,
    customerName: string,
    address: string,
    moderatorId: string,
    status: LeadStatus,
    assignedDate: string,
    createdAt: int)

  datatype Order = Order(
    id: string,
    moderatorId: string,
    customerName: string,
    customerPhone: string,
    customerAddress: string,
    items: seq<OrderItem>,
    totalAmount: int,
    status: OrderStatus,
    createdAt: int,
    notes: string,
    steadfastId: Option<string>,
    courierStatus: Option<string>)

  /** The consignment data a courier sync hands back. */
  datatype CourierData = CourierData(id: string, status: string)

  /** The lower-case name under which a status is stored and shown. */
  function StatusLabel(s: OrderStatus): (r: string)
    ensures |r| > 0
  {
    match s
    case Pending => "pending"
    case Confirmed => "confirmed"
    case Delivered => "delivered"
    case Cancelled => "cancelled"
  }

  /** Distinct statuses have distinct labels, so the label identifies the status. */
  lemma StatusLabelInjective(a: OrderStatus, b: OrderStatus)
    ensures StatusLabel(a) == StatusLabel(b) ==> a == b
  {
    if a != b {
      assert StatusLabel(a)[0] != StatusLabel(b)[0] || |StatusLabel(a)| != |StatusLabel(b)| || StatusLabel(a)[1] != StatusLabel(b)[1];
    }
  }
}
