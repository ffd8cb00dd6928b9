/** Order creation: validate the request, price every line against the current menu
    (lines whose name does not resolve to an available item count for nothing), add
    the delivery fee, pick a preparation estimate and an order number, insert the
    order, then insert one `order_items` row per line that resolves. */
module Order {
  import opened Text
  import opened Store

  const DeliveryFeeCents: int := 300
  const NumberPrefix: string := "ORD"
  const Digits: string := "0123456789"
  const FailureText: string :=
    "Unable to complete your order at this time. Please try again or call us directly at +356 2133 7367."

  /** An entry of the request's `items`. */
  datatype LineItem = LineItem(itemName: Option<string>, quantity: int, modifications: Option<string>)

  datatype OrderRequest = OrderRequest(
    customerName: Option<string>,
    customerPhone: Option<string>,
    customerEmail: Option<string>,
    orderType: Option<string>,
    items: Option<seq<LineItem>>,
    deliveryAddress: Option<string>,
    deliveryCity: Option<string>,
    deliveryPostalCode: Option<string>,
    specialInstructions: Option<string>,
    sessionId: Option<string>)

  datatype OrderError = MissingParameters | InvalidOrderType | MissingDeliveryAddress

  datatype Validation = Rejected(error: OrderError) | Accepted(orderType: OrderType)

  /** `customer_name`, `customer_phone`, `order_type` truthy and `items` non-empty. */
  predicate HasRequiredFields(req: OrderRequest) {
    Present(req.customerName) && Present(req.customerPhone) && Present(req.orderType)
    && req.items.Some? && |req.items.value| > 0
  }

  /** The three checks, in the handler's order. */
  function Validate(req: OrderRequest): (r: Validation)
    ensures r == Rejected(MissingParameters) <==> !HasRequiredFields(req)
    ensures r == Rejected(InvalidOrderType) <==>
      HasRequiredFields(req) && req.orderType.value != "delivery" && req.orderType.value != "pickup"
    ensures r == Rejected(MissingDeliveryAddress) <==>
      HasRequiredFields(req) && req.orderType.value == "delivery" && !Present(req.deliveryAddress)
    ensures r.Accepted? ==> HasRequiredFields(req)
    ensures r == Accepted(Delivery) <==>
      HasRequiredFields(req) && req.orderType.value == "delivery" && Present(req.deliveryAddress)
    ensures r == Accepted(Pickup) <==> HasRequiredFields(req) && req.orderType.value == "pickup"
  {
    if !HasRequiredFields(req) then Rejected(MissingParameters)
    else if req.orderType.value != "delivery" && req.orderType.value != "pickup" then Rejected(InvalidOrderType)
    else if req.orderType.value == "delivery" && !Present(req.deliveryAddress) then Rejected(MissingDeliveryAddress)
    else if req.orderType.value == "delivery" then Accepted(Delivery)
    else Accepted(Pickup)
  }

  /** A pickup order is accepted whatever its delivery fields say. */
  lemma PickupNeedsNoAddress(req: OrderRequest, address: Option<string>)
    requires HasRequiredFields(req) && req.orderType.value == "pickup"
    ensures Validate(req) == Accepted(Pickup)
    ensures Validate(req.(deliveryAddress := address)) == Accepted(Pickup)
  {
  }

  /** The line's name resolves to an available menu item. */
  predicate Resolves(menu: seq<MenuItem>, line: LineItem) {
    FindAvailable(menu, line.itemName).Some?
  }

  function LinePrice(menu: seq<MenuItem>, line: LineItem): int {
    match FindAvailable(menu, line.itemName)
    case Some(m) => m.priceCents * line.quantity
    case None => 0
  }

  /** What `calculateTotal` accumulates over the lines. */
  function Subtotal(menu: seq<MenuItem>, lines: seq<LineItem>): int
    decreases |lines|
  {
    if |lines| == 0 then 0
    else Subtotal(menu, lines[..|lines| - 1]) + LinePrice(menu, lines[|lines| - 1])
  }

  /** `calculateTotal(items)`: one price lookup per line. */
  method CalculateTotal(menu: seq<MenuItem>, lines: seq<LineItem>) returns (total: int)
    ensures total == Subtotal(menu, lines)
  {
    total := 0;
    var i := 0;
    while i < |lines|
      invariant 0 <= i <= |lines|
      invariant total == Subtotal(menu, lines[..i])
    {
      var found := FindAvailable(menu, lines[i].itemName);
      if found.Some? {
        total := total + found.value.priceCents * lines[i].quantity;
      }
      assert lines[..i + 1][..i] == lines[..i];
      i := i + 1;
    }
    assert lines[..i] == lines;
  }

  /** The lines that resolve, in request order. */
  function Resolved(menu: seq<MenuItem>, lines: seq<LineItem>): seq<LineItem>
    decreases |lines|
  {
    if |lines| == 0 then []
    else
      var last := if Resolves(menu, lines[|lines| - 1]) then [lines[|lines| - 1]] else [];
      Resolved(menu, lines[..|lines| - 1]) + last
  }

  /** The `order_items` row for a line that resolves: the menu's current id, name and
      price, with the request's quantity and modifications. */
  function RowFor(orderId: int, menu: seq<MenuItem>, line: LineItem): (row: OrderItemRow)
    requires Resolves(menu, line)
    ensures exists m :: m in menu && m.available && line.itemName.Some? && EqualsIgnoreCase(m.name, line.itemName.value)
                     && row == OrderItemRow(orderId, m.id, m.name, line.quantity, OrNull(line.modifications), m.priceCents)
  {
    var m := FindAvailable(menu, line.itemName).value;
    OrderItemRow(orderId, m.id, m.name, line.quantity, OrNull(line.modifications), m.priceCents)
  }

  /** The rows the insertion loop writes. */
  function LineRows(orderId: int, menu: seq<MenuItem>, lines: seq<LineItem>): seq<OrderItemRow>
    decreases |lines|
  {
    if |lines| == 0 then []
    else
      var line := lines[|lines| - 1];
      var last := if Resolves(menu, line) then [RowFor(orderId, menu, line)] else [];
      LineRows(orderId, menu, lines[..|lines| - 1]) + last
  }

  /** The resolving lines are the request's lines with the others left out, in order,
      each kept as often as the request has it. */
  lemma {:induction false} ResolvedIsFilter(menu: seq<MenuItem>, lines: seq<LineItem>)
    ensures IsSubsequence(Resolved(menu, lines), lines)
    ensures forall l :: multiset(Resolved(menu, lines))[l] == if Resolves(menu, l) then multiset(lines)[l] else 0
    decreases |lines|
  {
    if |lines| > 0 {
      var n := |lines|;
      var front, l := lines[..n - 1], lines[n - 1];
      assert lines == front + [l];
      ResolvedIsFilter(menu, front);
      var r := Resolved(menu, front);
      if Resolves(menu, l) {
        assert Resolved(menu, lines) == r + [l];
        SubsequenceAppend(r, front, l);
      } else {
        assert Resolved(menu, lines) == r;
        SubsequenceExtend(r, front, l);
      }
    }
  }

  /** Exactly one row per resolving line, in request order, carrying what `RowFor` copies
      from the menu. */
  lemma {:induction false} OneRowPerResolvedLine(orderId: int, menu: seq<MenuItem>, lines: seq<LineItem>)
    ensures |LineRows(orderId, menu, lines)| == |Resolved(menu, lines)|
    ensures forall k :: 0 <= k < |Resolved(menu, lines)| ==>
      Resolves(menu, Resolved(menu, lines)[k])
      && LineRows(orderId, menu, lines)[k] == RowFor(orderId, menu, Resolved(menu, lines)[k])
    decreases |lines|
  {
    if |lines| > 0 {
      OneRowPerResolvedLine(orderId, menu, lines[..|lines| - 1]);
    }
  }

  /** The sum of price times quantity over the rows written. */
  function RowsTotal(rows: seq<OrderItemRow>): int
    decreases |rows|
  {
    if |rows| == 0 then 0 else RowsTotal(rows[..|rows| - 1]) + rows[|rows| - 1].itemPrice * rows[|rows| - 1].quantity
  }

  /** The subtotal charged equals the total of the `order_items` rows written: lines
      that do not resolve are neither charged nor written. */
  lemma {:induction false} SubtotalMatchesRows(orderId: int, menu: seq<MenuItem>, lines: seq<LineItem>)
    ensures Subtotal(menu, lines) == RowsTotal(LineRows(orderId, menu, lines))
    ensures Subtotal(menu, lines) == Subtotal(menu, Resolved(menu, lines))
    decreases |lines|
  {
    if |lines| > 0 {
      var n := |lines|;
      var front, l := lines[..n - 1], lines[n - 1];
      SubtotalMatchesRows(orderId, menu, front);
      var rows := LineRows(orderId, menu, lines);
      var res := Resolved(menu, lines);
      if Resolves(menu, l) {
        assert rows[..|rows| - 1] == LineRows(orderId, menu, front);
        assert res[..|res| - 1] == Resolved(menu, front);
      } else {
        assert rows == LineRows(orderId, menu, front);
        assert res == Resolved(menu, front);
      }
    }
  }

  /** The amount stored on the order: what the resolving lines cost, plus the fee, once,
      for delivery orders; lines that do not resolve add nothing. */
  function OrderTotal(menu: seq<MenuItem>, lines: seq<LineItem>, orderType: OrderType): (r: int)
    ensures orderType == Pickup ==> r == Subtotal(menu, Resolved(menu, lines))
    ensures orderType == Delivery ==> r == Subtotal(menu, Resolved(menu, lines)) + DeliveryFeeCents
  {
    SubtotalMatchesRows(0, menu, lines);
    Subtotal(menu, lines) + if orderType == Delivery then DeliveryFeeCents else 0
  }

  /** A single known line of quantity q costs q times its price for pickup, and that
      plus the fee, exactly once, for delivery. */
  lemma SingleLineTotals(menu: seq<MenuItem>, name: string, q: int)
    requires FindAvailable(menu, Some(name)).Some?
    ensures var price := FindAvailable(menu, Some(name)).value.priceCents;
            && OrderTotal(menu, [LineItem(Some(name), q, None)], Pickup) == price * q
            && OrderTotal(menu, [LineItem(Some(name), q, None)], Delivery) == price * q + DeliveryFeeCents
  {
    var lines := [LineItem(Some(name), q, None)];
    assert lines[..0] == [];
    assert Subtotal(menu, lines) == LinePrice(menu, lines[0]);
  }

  /** `30 + Math.floor(Math.random() * 15)`, with the draw as the floored value. */
  function EstimatedMinutes(draw: nat): (m: int)
    requires draw < 15
    ensures 30 <= m <= 44
  {
    30 + draw
  }

  /** "ORD" followed by six decimal digits. */
  predicate IsOrderNumber(code: string) {
    |code| == 9 && code[..3] == NumberPrefix && forall i :: 3 <= i < 9 ==> IsDigit(code[i])
  }

  function OrderNumber(draws: seq<nat>): string
    requires |draws| == 6 && forall i :: 0 <= i < 6 ==> draws[i] < |Digits|
  {
    NumberPrefix + seq(6, i requires 0 <= i < 6 => Digits[draws[i]])
  }

  /** Every number the generator can build has the order-number format. */
  lemma OrderNumberFormat(draws: seq<nat>)
    requires |draws| == 6 && forall i :: 0 <= i < 6 ==> draws[i] < |Digits|
    ensures IsOrderNumber(OrderNumber(draws))
  {
    forall i | 0 <= i < |Digits| ensures IsDigit(Digits[i]) {
      assert Digits[i] as int == '0' as int + i;
    }
  }

  /** `generateOrderNumber()`, with the six `Math.random()` draws as indices. */
  method GenerateOrderNumber(draws: seq<nat>) returns (code: string)
    requires |draws| == 6 && forall i :: 0 <= i < 6 ==> draws[i] < |Digits|
    ensures code == OrderNumber(draws)
    ensures IsOrderNumber(code)
  {
    code := RandomCode(NumberPrefix, Digits, draws);
    assert code == NumberPrefix + code[3..];
    OrderNumberFormat(draws);
  }

  function OrderTypeName(t: OrderType): string {
    if t == Delivery then "delivery" else "pickup"
  }

  /** The `orders` row: the new order is pending, carries the number, total and estimate
      it was given, and stores every optional field as given or null, the delivery
      fields on pickup orders included. */
  function OrderRowFor(id: int, number: string, req: OrderRequest, t: OrderType, totalCents: int, minutes: int)
    : (row: OrderRow)
    requires HasRequiredFields(req)
    ensures row.status == "pending"
    ensures row.id == id && row.orderNumber == number && row.orderType == t
    ensures row.totalCents == totalCents && row.estimatedMinutes == minutes
    ensures row.customerName == req.customerName.value && row.customerPhone == req.customerPhone.value
    ensures StoredAsGiven(row.customerEmail, req.customerEmail)
    ensures StoredAsGiven(row.deliveryAddress, req.deliveryAddress)
    ensures StoredAsGiven(row.deliveryCity, req.deliveryCity)
    ensures StoredAsGiven(row.deliveryPostalCode, req.deliveryPostalCode)
    ensures StoredAsGiven(row.specialInstructions, req.specialInstructions)
    ensures StoredAsGiven(row.sessionId, req.sessionId)
  {
    OrderRow(id, number, req.customerName.value, req.customerPhone.value, OrNull(req.customerEmail), t,
      OrNull(req.deliveryAddress), OrNull(req.deliveryCity), OrNull(req.deliveryPostalCode),
      totalCents, OrNull(req.specialInstructions), "pending", minutes, OrNull(req.sessionId))
  }

  /** The 200 body. */
  datatype Confirmation = Confirmation(
    orderNumber: string,
    orderId: int,
    customerName: string,
    orderType: OrderType,
    totalCents: int,
    estimatedMinutes: int,
    items: seq<LineItem>,
    deliveryAddress: Option<string>,
    specialInstructions: Option<string>,
    message: string)

  datatype OrderReply = Invalid(error: OrderError) | Placed(confirmation: Confirmation) | Failed(message: string)

  /** Where the store throws, if it does: while pricing or inserting the order (nothing
      is written), or while handling the line at index `k` (the order and the rows of the
      earlier lines stay written). */
  datatype OrderFault = NoFault | FailsBeforeOrderRow | FailsAtLine(k: nat)

  /** The response body of a placed order. */
  function ConfirmationFor(req: OrderRequest, t: OrderType, id: int, number: string, totalCents: int, minutes: int)
    : (c: Confirmation)
    requires HasRequiredFields(req)
    ensures c.orderNumber == number && c.orderId == id && c.customerName == req.customerName.value
    ensures c.orderType == t && c.totalCents == totalCents && c.estimatedMinutes == minutes
    ensures c.items == req.items.value
    ensures c.deliveryAddress.Some? <==> t == Delivery && req.deliveryAddress.Some?
    ensures t == Delivery ==> c.deliveryAddress == req.deliveryAddress
    ensures c.specialInstructions == req.specialInstructions
    ensures StartsWith(c.message, "Order confirmed! Order number: " + number + ".")
  {
    var message := "Order confirmed! Order number: " + number + ". Estimated " + OrderTypeName(t)
      + " time: " + IntToString(minutes) + " minutes.";
    Confirmation(number, id, req.customerName.value, t, totalCents, minutes, req.items.value,
      if t == Delivery then req.deliveryAddress else None,
      req.specialInstructions, message)
  }

  /** The insertion loop: one `order_items` row per resolving line, in request order,
      until the store fails at line `fault.k`, if it does; `failed` says whether it did. */
  method InsertLineRows(db: Database, orderId: int, lines: seq<LineItem>, fault: OrderFault) returns (failed: bool)
    modifies db`orderItems
    ensures failed <==> fault.FailsAtLine? && fault.k < |lines|
    ensures failed ==> db.orderItems == old(db.orderItems) + LineRows(orderId, db.menuItems, lines[..fault.k])
    ensures !failed ==> db.orderItems == old(db.orderItems) + LineRows(orderId, db.menuItems, lines)
  {
    var i := 0;
    while i < |lines|
      invariant 0 <= i <= |lines|
      invariant db.orderItems == old(db.orderItems) + LineRows(orderId, db.menuItems, lines[..i])
      invariant fault.FailsAtLine? ==> i <= fault.k
    {
      if fault == FailsAtLine(i) {
        return true;
      }
      var found := FindAvailable(db.menuItems, lines[i].itemName);
      if found.Some? {
        var m := found.value;
        db.InsertOrderItem(OrderItemRow(orderId, m.id, m.name, lines[i].quantity, OrNull(lines[i].modifications), m.priceCents));
      }
      assert lines[..i + 1][..i] == lines[..i];
      i := i + 1;
    }
    assert lines[..i] == lines;
    return false;
  }

  /** The handler. */
  method CreateOrder(db: Database, req: OrderRequest, draws: seq<nat>, prepDraw: nat, orderId: int, fault: OrderFault)
    returns (reply: OrderReply)
    requires |draws| == 6 && forall i :: 0 <= i < 6 ==> draws[i] < |Digits|
    requires prepDraw < 15
    modifies db`orders, db`orderItems
    ensures Validate(req).Rejected? ==>
      reply == Invalid(Validate(req).error) && db.orders == old(db.orders) && db.orderItems == old(db.orderItems)
    ensures Validate(req).Accepted? && fault == FailsBeforeOrderRow ==>
      reply == Failed(FailureText) && db.orders == old(db.orders) && db.orderItems == old(db.orderItems)
    ensures Validate(req).Accepted? && fault != FailsBeforeOrderRow ==>
      var t, lines := Validate(req).orderType, req.items.value;
      var total := OrderTotal(db.menuItems, lines, t);
      var number, minutes := OrderNumber(draws), EstimatedMinutes(prepDraw);
      && db.orders == old(db.orders) + [OrderRowFor(orderId, number, req, t, total, minutes)]
      && (fault.FailsAtLine? && fault.k < |lines| ==>
            reply == Failed(FailureText)
            && db.orderItems == old(db.orderItems) + LineRows(orderId, db.menuItems, lines[..fault.k]))
      && (!(fault.FailsAtLine? && fault.k < |lines|) ==>
            reply == Placed(ConfirmationFor(req, t, orderId, number, total, minutes))
            && db.orderItems == old(db.orderItems) + LineRows(orderId, db.menuItems, lines))
  {
    var v := Validate(req);
    if v.Rejected? {
      return Invalid(v.error);
    }
    if fault == FailsBeforeOrderRow {
      return Failed(FailureText);
    }
    var t, lines := v.orderType, req.items.value;
    var total := CalculateTotal(db.menuItems, lines);
    if t == Delivery {
      total := total + DeliveryFeeCents;
    }
    var minutes := EstimatedMinutes(prepDraw);
    var number := GenerateOrderNumber(draws);
    db.InsertOrder(OrderRowFor(orderId, number, req, t, total, minutes));
    var failed := InsertLineRows(db, orderId, lines, fault);
    if failed {
      return Failed(FailureText);
    }
    reply := Placed(ConfirmationFor(req, t, orderId, number, total, minutes));
  }
}
