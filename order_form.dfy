/** The order drafting form: the list of selected products with their
    quantities, the running total, the checks made before submitting, the
    `Order` record that is submitted, and the auto-fill of customer details
    from a lead with the typed phone number. */
module OrderForm {
  import opened Types
  import opened Lists
  import opened Text
  import Numeric

  /** One line of the draft: a product and how many of it. */
  datatype Selection = Selection(productId: string, quantity: int)

  /** The quantity limit when a product has no stock figure. */
  const NoStockLimit := 9999

  /** The shortest phone number the form accepts and the length that
      triggers the lead look-up. */
  const MinPhoneLength := 11

  function FindProduct(products: seq<Product>, id: string): (r: Option<Product>)
    ensures r.Some? ==> r.value.id == id && r.value in products
    ensures r.None? <==> forall i :: 0 <= i < |products| ==> products[i].id != id
    ensures forall i :: 0 <= i < |products| && products[i].id == id && (forall j :: 0 <= j < i ==> products[j].id != id)
                ==> r == Some(products[i])
  {
    FindFirst(products, (p: Product) => p.id == id)
  }

  /** The stock of the product, or 9999 when the product is unknown or has no
      stock figure. A stock of 0 is a limit of 0. */
  function StockLimit(products: seq<Product>, productId: string): (r: int)
    ensures FindProduct(products, productId).Some? && FindProduct(products, productId).value.stock.Some?
            ==> r == FindProduct(products, productId).value.stock.value
    ensures FindProduct(products, productId).Some? && FindProduct(products, productId).value.stock.None? ==> r == NoStockLimit
    ensures FindProduct(products, productId).None? ==> r == NoStockLimit
  {
    match FindProduct(products, productId)
    case Some(p) => p.stock.GetOr(NoStockLimit)
    case None => NoStockLimit
  }

  /** A requested quantity cut down to the limit first and raised to 1 after,
      so the result is at least 1 even when the limit is 0. */
  function ClampQuantity(q: int, limit: int): (r: int)
    ensures r >= 1
    ensures limit >= 1 ==> r <= limit
    ensures 1 <= q <= limit ==> r == q
    ensures q < 1 ==> r == 1
    ensures q > limit ==> r == (if limit >= 1 then limit else 1)
  {
    var capped := if q > limit then limit else q;
    if capped > 1 then capped else 1
  }

  /** What one line adds to the total: price times quantity, or 0 when the
      product is not in the catalogue. */
  function LineTotal(item: Selection, products: seq<Product>): (r: int)
    ensures FindProduct(products, item.productId).None? ==> r == 0
    ensures FindProduct(products, item.productId).Some? ==> r == FindProduct(products, item.productId).value.price * item.quantity
  {
    match FindProduct(products, item.productId)
    case Some(p) => p.price * item.quantity
    case None => 0
  }

  /** The running total, summed from the first line to the last. */
  function CalculateTotal(items: seq<Selection>, products: seq<Product>): (r: int)
    ensures items == [] ==> r == 0
    ensures (forall i :: 0 <= i < |items| ==> LineTotal(items[i], products) >= 0) ==> r >= 0
  {
    if items == [] then 0
    else CalculateTotal(items[..|items| - 1], products) + LineTotal(items[|items| - 1], products)
  }

  /** The total of two drafts laid end to end is the sum of their totals. */
  lemma {:induction false} TotalAppend(a: seq<Selection>, b: seq<Selection>, products: seq<Product>)
    ensures CalculateTotal(a + b, products) == CalculateTotal(a, products) + CalculateTotal(b, products)
    decreases |b|
  {
    if b == [] {
      assert a + b == a;
    } else {
      var b' := b[..|b| - 1];
      assert (a + b)[..|a + b| - 1] == a + b';
      assert (a + b)[|a + b| - 1] == b[|b| - 1];
      TotalAppend(a, b', products);
    }
  }

  /** Lines whose product is unknown add nothing: a draft made only of them
      totals 0. */
  lemma {:induction false} TotalOfUnknown(items: seq<Selection>, products: seq<Product>)
    requires forall i :: 0 <= i < |items| ==> FindProduct(products, items[i].productId).None?
    ensures CalculateTotal(items, products) == 0
  {
    if items != [] {
      TotalOfUnknown(items[..|items| - 1], products);
    }
  }

  /** The draft without position `index`, kept in order; an index outside the
      draft removes nothing. Written as the source writes it: a filter over
      positions. */
  function WithoutIndex(s: seq<Selection>, index: int): (r: seq<Selection>)
    ensures 0 <= index < |s| ==> r == s[..index] + s[index + 1..]
    ensures 0 <= index < |s| ==> |r| == |s| - 1
    ensures !(0 <= index < |s|) ==> r == s
  {
    WithoutIndexFromSpec(s, index, 0);
    WithoutIndexFrom(s, index, 0)
  }

  function WithoutIndexFrom(s: seq<Selection>, index: int, from: int): (r: seq<Selection>)
  {
    if s == [] then []
    else (if from == index then [] else [s[0]]) + WithoutIndexFrom(s[1..], index, from + 1)
  }

  lemma {:induction false} WithoutIndexFromSpec(s: seq<Selection>, index: int, from: int)
    ensures from <= index < from + |s| ==> WithoutIndexFrom(s, index, from) == s[..index - from] + s[index - from + 1..]
    ensures !(from <= index < from + |s|) ==> WithoutIndexFrom(s, index, from) == s
  {
    if s != [] {
      WithoutIndexFromSpec(s[1..], index, from + 1);
      var rest := WithoutIndexFrom(s[1..], index, from + 1);
      var head := if from == index then [] else [s[0]];
      assert WithoutIndexFrom(s, index, from) == head + rest;
      if from < index < from + |s| {
        SliceAroundHead(s, index - from);
      } else if from != index {
        assert s == [s[0]] + s[1..];
      }
    }
  }

  /** Cutting position `j > 0` out of `s` keeps the head and cuts `j - 1`
      out of the tail. */
  lemma SliceAroundHead(s: seq<Selection>, j: int)
    requires 1 <= j < |s|
    ensures s[..j] == [s[0]] + s[1..][..j - 1]
    ensures s[j + 1..] == s[1..][j..]
  {
  }

  /** Why a submission is refused, in the order the checks are made. */
  datatype SubmitError = NoItems | PhoneTooShort | NameOrAddressMissing | AlreadySubmitting

  /** The checks made on submit; the first that fails is reported. */
  function ValidateSubmit(items: seq<Selection>, phone: string, name: string, address: string, submitting: bool): (r: Option<SubmitError>)
    ensures r.None? <==> |items| > 0 && |Trim(phone)| >= MinPhoneLength && Trim(name) != [] && Trim(address) != [] && !submitting
    ensures r == Some(NoItems) <==> |items| == 0
    ensures r == Some(PhoneTooShort) <==> |items| > 0 && |Trim(phone)| < MinPhoneLength
    ensures r == Some(NameOrAddressMissing) <==> |items| > 0 && |Trim(phone)| >= MinPhoneLength && (Trim(name) == [] || Trim(address) == [])
  {
    if |items| == 0 then Some(NoItems)
    else if |Trim(phone)| < MinPhoneLength then Some(PhoneTooShort)
    else if Trim(name) == [] || Trim(address) == [] then Some(NameOrAddressMissing)
    else if submitting then Some(AlreadySubmitting)
    else None
  }

  /** The id the form gives the `idx`-th line item, `oi-<stamp>-<idx>`. */
  function ItemId(stamp: string, idx: nat): (r: string)
    ensures |r| > |stamp| + 4 && r[..|stamp| + 4] == "oi-" + stamp + "-"
    ensures Numeric.AllDigits(r[|stamp| + 4..]) && Numeric.DigitsValue(r[|stamp| + 4..]) == idx
  {
    var r := "oi-" + stamp + "-" + Numeric.NatToString(idx);
    assert r[|stamp| + 4..] == Numeric.NatToString(idx);
    Numeric.NatToStringRoundTrip(idx);
    r
  }

  /** The lines of one order get different ids. */
  lemma ItemIdInjective(stamp: string, i: nat, j: nat)
    requires ItemId(stamp, i) == ItemId(stamp, j)
    ensures i == j
  {
  }

  /** The code reads the clock once per line, so the lines' stamps may differ.
      With stamps made of digits, as clock readings are, an id still fixes both
      its stamp and its position: the first `-` after `oi-` ends the stamp. */
  lemma ItemIdInjectiveAcrossStamps(s1: string, s2: string, i: nat, j: nat)
    requires Numeric.AllDigits(s1) && Numeric.AllDigits(s2)
    requires ItemId(s1, i) == ItemId(s2, j)
    ensures s1 == s2 && i == j
  {
    ItemIdDash(s1, i);
    ItemIdDash(s2, j);
    var id := ItemId(s1, i);
    assert |s1| == |s2|;
    assert s1 == id[3..|s1| + 3] == s2;
  }

  /** In an id with a digit stamp, the first `-` after `oi-` is the one that
      ends the stamp. */
  lemma ItemIdDash(stamp: string, idx: nat)
    requires Numeric.AllDigits(stamp)
    ensures ItemId(stamp, idx)[|stamp| + 3] == '-'
    ensures forall k :: 3 <= k < |stamp| + 3 ==> ItemId(stamp, idx)[k] == stamp[k - 3] && ItemId(stamp, idx)[k] != '-'
    ensures ItemId(stamp, idx)[3..|stamp| + 3] == stamp
  {
    var id := ItemId(stamp, idx);
    var head := id[..|stamp| + 4];
    assert head == "oi-" + stamp + "-";
    forall k | 3 <= k < |stamp| + 3
      ensures id[k] == stamp[k - 3] && id[k] != '-'
    {
      assert id[k] == head[k];
      assert Numeric.IsDigit(stamp[k - 3]);
    }
    assert id[|stamp| + 3] == head[|stamp| + 3];
    assert id[3..|stamp| + 3] == head[3..|stamp| + 3];
  }

  /** The submitted line items, priced at the catalogue's current price; `None`
      when a line's product is not in the catalogue (the form then throws and
      the submission fails). */
  function BuildItems(sel: seq<Selection>, products: seq<Product>, stamp: string): (r: Option<seq<OrderItem>>)
    ensures r.None? <==> exists i :: 0 <= i < |sel| && FindProduct(products, sel[i].productId).None?
    ensures r.Some? ==> |r.value| == |sel| && forall i :: 0 <= i < |sel| ==>
      && FindProduct(products, sel[i].productId).Some?
      && r.value[i] == OrderItem(ItemId(stamp, i), sel[i].productId, sel[i].quantity,
                                 FindProduct(products, sel[i].productId).value.price)
  {
    if exists i :: 0 <= i < |sel| && FindProduct(products, sel[i].productId).None? then None
    else Some(seq(|sel|, i requires 0 <= i < |sel| =>
      OrderItem(ItemId(stamp, i), sel[i].productId, sel[i].quantity, FindProduct(products, sel[i].productId).value.price)))
  }

  /** The sum of price times quantity over the line items of an order. */
  function ItemsSum(items: seq<OrderItem>): int {
    if items == [] then 0 else ItemsSum(items[..|items| - 1]) + items[|items| - 1].price * items[|items| - 1].quantity
  }

  /** The order a valid submission hands to the store: pending, owned by the
      current user, text fields trimmed, one line item per selection and the
      form's total as its amount. */
  function BuildOrder(
    sel: seq<Selection>, products: seq<Product>, userId: string, orderId: string, stamp: string, now: int,
    name: string, phone: string, address: string, notes: string): (r: Option<Order>)
    ensures r.None? <==> BuildItems(sel, products, stamp).None?
    ensures r.Some? ==>
      && r.value.id == orderId && r.value.moderatorId == userId && r.value.status == Pending
      && r.value.customerName == Trim(name) && r.value.customerPhone == Trim(phone)
      && r.value.customerAddress == Trim(address) && r.value.notes == Trim(notes)
      && r.value.items == BuildItems(sel, products, stamp).value
      && r.value.totalAmount == CalculateTotal(sel, products)
      && r.value.createdAt == now
      && r.value.steadfastId.None? && r.value.courierStatus.None?
  {
    match BuildItems(sel, products, stamp)
    case None => None
    case Some(items) =>
      Some(Order(orderId, userId, Trim(name), Trim(phone), Trim(address), items,
                 CalculateTotal(sel, products), Pending, now, Trim(notes), None, None))
  }

  /** Line items that agree line by line with the draft's line totals sum to
      the draft's total. */
  lemma {:induction false} ItemsSumMatchesTotal(items: seq<OrderItem>, sel: seq<Selection>, products: seq<Product>)
    requires |items| == |sel|
    requires forall i :: 0 <= i < |sel| ==> items[i].price * items[i].quantity == LineTotal(sel[i], products)
    ensures ItemsSum(items) == CalculateTotal(sel, products)
    decreases |sel|
  {
    if sel != [] {
      ItemsSumMatchesTotal(items[..|items| - 1], sel[..|sel| - 1], products);
    }
  }

  /** A submitted order's amount is the sum of its line items, because every
      line is priced at the price the total was computed with. */
  lemma BuiltOrderAmountIsItemsSum(
    sel: seq<Selection>, products: seq<Product>, userId: string, orderId: string, stamp: string, now: int,
    name: string, phone: string, address: string, notes: string)
    requires BuildOrder(sel, products, userId, orderId, stamp, now, name, phone, address, notes).Some?
    ensures var o := BuildOrder(sel, products, userId, orderId, stamp, now, name, phone, address, notes).value;
            ItemsSum(o.items) == o.totalAmount
  {
    var items := BuildItems(sel, products, stamp).value;
    forall i | 0 <= i < |sel| ensures items[i].price * items[i].quantity == LineTotal(sel[i], products) {
      assert FindProduct(products, sel[i].productId).Some?;
    }
    ItemsSumMatchesTotal(items, sel, products);
  }

  /** The first lead whose number contains the trimmed phone input. */
  function MatchingLead(leads: seq<Lead>, phone: string): (r: Option<Lead>)
    ensures r.Some? ==> r.value in leads && Contains(r.value.phoneNumber, Trim(phone))
    ensures r.None? ==> forall i :: 0 <= i < |leads| ==> !Contains(leads[i].phoneNumber, Trim(phone))
    ensures forall i :: 0 <= i < |leads| && Contains(leads[i].phoneNumber, Trim(phone))
                && (forall j :: 0 <= j < i ==> !Contains(leads[j].phoneNumber, Trim(phone)))
                ==> r == Some(leads[i])
  {
    var typed := Trim(phone);
    var test := PhoneMatchTest(typed);
    assert forall i :: 0 <= i < |leads| ==> test(leads[i]) == Contains(leads[i].phoneNumber, typed);
    FindFirst(leads, test)
  }

  function PhoneMatchTest(typed: string): Lead -> bool {
    (l: Lead) => Contains(l.phoneNumber, typed)
  }

  /** The name and address after the auto-fill: a field is filled from the
      matching lead only when at least 11 characters are typed, the lead has a
      value for it and the field is still empty. */
  function AutoFilled(leads: seq<Lead>, phone: string, name: string, address: string): (r: (string, string))
    ensures name != [] ==> r.0 == name
    ensures address != [] ==> r.1 == address
    ensures |phone| < MinPhoneLength ==> r == (name, address)
    ensures r.0 != name ==> |phone| >= MinPhoneLength && MatchingLead(leads, phone).Some? && r.0 == MatchingLead(leads, phone).value.customerName
    ensures r.1 != address ==> |phone| >= MinPhoneLength && MatchingLead(leads, phone).Some? && r.1 == MatchingLead(leads, phone).value.address
    ensures |phone| >= MinPhoneLength && MatchingLead(leads, phone).Some? && name == [] ==> r.0 == MatchingLead(leads, phone).value.customerName
    ensures |phone| >= MinPhoneLength && MatchingLead(leads, phone).Some? && address == [] ==> r.1 == MatchingLead(leads, phone).value.address
  {
    if |phone| < MinPhoneLength then (name, address)
    else
      match MatchingLead(leads, phone)
      case None => (name, address)
      case Some(m) =>
        if m.customerName == [] && m.address == [] then (name, address)
        else
          (if m.customerName != [] && name == [] then m.customerName else name,
           if m.address != [] && address == [] then m.address else address)
  }

  /** How a submission ends, from the form's fields before it, the catalogue
      and whether the store's insert succeeds. */
  function SubmitOutcome(
    sel: seq<Selection>, phone: string, name: string, address: string, notes: string, submitting: bool,
    products: seq<Product>, userId: string, orderId: string, stamp: string, now: int, createOk: bool): (r: SubmitResult)
    ensures ValidateSubmit(sel, phone, name, address, submitting).Some? ==>
      r == Rejected(ValidateSubmit(sel, phone, name, address, submitting).value)
    ensures r.Created? ==>
      ValidateSubmit(sel, phone, name, address, submitting).None? && createOk
      && BuildOrder(sel, products, userId, orderId, stamp, now, name, phone, address, notes) == Some(r.order)
    ensures (ValidateSubmit(sel, phone, name, address, submitting).None? && createOk
             && BuildOrder(sel, products, userId, orderId, stamp, now, name, phone, address, notes).Some?) ==> r.Created?
  {
    match ValidateSubmit(sel, phone, name, address, submitting)
    case Some(err) => Rejected(err)
    case None =>
      match BuildOrder(sel, products, userId, orderId, stamp, now, name, phone, address, notes)
      case Some(o) => if createOk then Created(o) else Failed
      case None => Failed
  }

  /** The steps of a submission on the form's values: the checks, then the
      build, then the insert. */
  method Decide(
    sel: seq<Selection>, phone: string, name: string, address: string, notes: string, submitting: bool,
    products: seq<Product>, userId: string, orderId: string, stamp: string, now: int, createOk: bool)
    returns (result: SubmitResult)
    ensures result == SubmitOutcome(sel, phone, name, address, notes, submitting, products, userId, orderId, stamp, now, createOk)
  {
    var check := ValidateSubmit(sel, phone, name, address, submitting);
    if check.Some? {
      return Rejected(check.value);
    }
    var built := BuildOrder(sel, products, userId, orderId, stamp, now, name, phone, address, notes);
    if built.Some? && createOk {
      result := Created(built.value);
    } else {
      result := Failed;
    }
  }

  /** How a press of the submit button ends. */
  datatype SubmitResult = Rejected(reason: SubmitError) | Failed | Created(order: Order)

  class Form {
    var customerName: string
    var customerPhone: string
    var customerAddress: string
    var notes: string
    var selectedItems: seq<Selection>
    var isSubmitting: bool

    constructor ()
      ensures customerName == [] && customerPhone == [] && customerAddress == [] && notes == []
      ensures selectedItems == [] && !isSubmitting
    {
      customerName, customerPhone, customerAddress, notes := [], [], [], [];
      selectedItems := [];
      isSubmitting := false;
    }

    /** Adds one line for the first catalogue product, quantity 1; does
        nothing when the catalogue is empty. */
    method AddItem(products: seq<Product>)
      modifies this`selectedItems
      ensures products == [] ==> selectedItems == old(selectedItems)
      ensures products != [] ==> selectedItems == old(selectedItems) + [Selection(products[0].id, 1)]
    {
      if |products| == 0 {
        return;
      }
      selectedItems := selectedItems + [Selection(products[0].id, 1)];
    }

    method RemoveItem(index: int)
      modifies this`selectedItems
      ensures selectedItems == WithoutIndex(old(selectedItems), index)
      ensures 0 <= index < |old(selectedItems)| ==> selectedItems == old(selectedItems)[..index] + old(selectedItems)[index + 1..]
      ensures !(0 <= index < |old(selectedItems)|) ==> selectedItems == old(selectedItems)
    {
      selectedItems := WithoutIndex(selectedItems, index);
    }

    /** Sets the line at `index` (a position the form shows) to the given
        product and the clamped quantity; every other line is kept. */
    method UpdateItem(index: nat, productId: string, quantity: int, products: seq<Product>)
      requires index < |selectedItems|
      modifies this`selectedItems
      ensures |selectedItems| == |old(selectedItems)|
      ensures selectedItems[index] == Selection(productId, ClampQuantity(quantity, StockLimit(products, productId)))
      ensures forall j :: 0 <= j < |selectedItems| && j != index ==> selectedItems[j] == old(selectedItems)[j]
      ensures selectedItems[index].quantity >= 1
    {
      var limit := StockLimit(products, productId);
      var finalQty := quantity;
      if finalQty > limit {
        finalQty := limit;
      }
      var newItems := selectedItems;
      newItems := newItems[index := Selection(productId, if 1 > finalQty then 1 else finalQty)];
      selectedItems := newItems;
    }

    method AutoFill(leads: seq<Lead>)
      modifies this`customerName, this`customerAddress
      ensures (customerName, customerAddress) == AutoFilled(leads, customerPhone, old(customerName), old(customerAddress))
    {
      if |customerPhone| >= MinPhoneLength {
        var m := MatchingLead(leads, customerPhone);
        if m.Some? && (m.value.customerName != [] || m.value.address != []) {
          if m.value.customerName != [] && customerName == [] {
            customerName := m.value.customerName;
          }
          if m.value.address != [] && customerAddress == [] {
            customerAddress := m.value.address;
          }
        }
      }
    }

    /** Empties the customer fields, the draft and the notes. */
    method ClearFields()
      modifies this
      ensures customerName == [] && customerPhone == [] && customerAddress == [] && notes == [] && selectedItems == []
      ensures isSubmitting == old(isSubmitting)
    {
      customerName, customerPhone, customerAddress := [], [], [];
      selectedItems := [];
      notes := [];
    }

    /** Submits the draft. A refused submission changes nothing. Otherwise the
        built order is handed to the store, whose insert reports `createOk`;
        only on success are the fields cleared, and the submitting flag is
        down again in every case. */
    method Submit(products: seq<Product>, userId: string, orderId: string, stamp: string, now: int, createOk: bool)
      returns (result: SubmitResult)
      modifies this
      ensures result == SubmitOutcome(old(selectedItems), old(customerPhone), old(customerName), old(customerAddress),
                                      old(notes), old(isSubmitting), products, userId, orderId, stamp, now, createOk)
      ensures !result.Rejected? ==> !isSubmitting
      ensures result.Rejected? ==> isSubmitting == old(isSubmitting)
      ensures result.Created? ==>
        customerName == [] && customerPhone == [] && customerAddress == [] && notes == [] && selectedItems == []
      ensures !result.Created? ==>
        && customerName == old(customerName) && customerPhone == old(customerPhone)
        && customerAddress == old(customerAddress) && notes == old(notes) && selectedItems == old(selectedItems)
    {
      result := Decide(selectedItems, customerPhone, customerName, customerAddress, notes, isSubmitting,
                       products, userId, orderId, stamp, now, createOk);
      if !result.Rejected? {
        isSubmitting := true;
        if result.Created? {
          ClearFields();
        }
        isSubmitting := false;
      }
    }
  }
}
