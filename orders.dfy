/** The records `processOrder` writes: one `orders` row carrying the cart total,
    then one `order_items` row per cart entry. The two remote writes themselves
    are not modelled; only their outcomes are, as inputs. */
module Orders {
  import opened Seqs
  import opened CartItems

  /** The checkout form's fields. */
  datatype Customer = Customer(name: string, email: string, phone: string)

  /** The `orders` row: customer fields, the cart total (cents) and the status. */
  datatype OrderRecord = OrderRecord(
    customerName: string,
    customerEmail: string,
    customerPhone: string,
    totalAmount: int,
    status: string)

  /** An `order_items` row. */
  datatype OrderLine = OrderLine(orderId: string, productId: string, quantity: int, price: int)

  /** Every new order starts in this status. */
  const Pending: string := "pending"

  /** What the `orders` insert with `.select().maybeSingle()` came back with:
      an error, no error but no row, or the created row's id. */
  datatype OrderInsert = InsertFailed | InsertedNoRow | Inserted(orderId: string)

  /** What one submission did: the order row it sent, the order lines it sent
      (None when it stopped before the second write), and whether it committed,
      that is, cleared the cart. */
  datatype Submission = Submission(order: OrderRecord, lines: Option<seq<OrderLine>>, committed: bool)

  /** The `orders` row for a customer and the cart at submission time. */
  function NewOrder(customer: Customer, items: seq<CartItem>): (r: OrderRecord)
    ensures r.status == Pending
    ensures items == [] ==> r.totalAmount == 0
    ensures WellFormed(items) && (forall i :: 0 <= i < |items| ==> items[i].price >= 0) ==> r.totalAmount >= 0
  {
    OrderRecord(customer.name, customer.email, customer.phone, Total(items), Pending)
  }

  /** `cart.map(...)`: one order line per cart entry, in cart order. */
  function OrderLines(orderId: string, items: seq<CartItem>): (r: seq<OrderLine>)
    ensures |r| == |items|
    ensures forall i :: 0 <= i < |r| ==> r[i].orderId == orderId
  {
    if items == [] then []
    else [OrderLine(orderId, items[0].id, items[0].quantity, items[0].price)] + OrderLines(orderId, items[1..])
  }

  /** The amount the order lines add up to. */
  function LinesTotal(lines: seq<OrderLine>): int {
    if lines == [] then 0 else lines[0].price * lines[0].quantity + LinesTotal(lines[1..])
  }

  /** The `order_items` payload, when the second write is reached. A missing
      row makes `order.id` throw, but only if the map has an entry to apply it
      to: with an empty cart the empty payload is still sent. */
  function ItemsPayload(first: OrderInsert, items: seq<CartItem>): (r: Option<seq<OrderLine>>)
    ensures first.InsertFailed? ==> r.None?
    ensures r.Some? ==> |r.value| == |items|
    ensures items == [] ==> (r.Some? <==> !first.InsertFailed?)
  {
    match first
    case InsertFailed => None
    case InsertedNoRow => if items == [] then Some([]) else None
    case Inserted(orderId) => Some(OrderLines(orderId, items))
  }

  /** Line i carries the order id and entry i's product id, quantity and price. */
  lemma {:induction false} OrderLineAt(orderId: string, items: seq<CartItem>, i: nat)
    requires i < |items|
    ensures |OrderLines(orderId, items)| == |items|
    ensures OrderLines(orderId, items)[i] == OrderLine(orderId, items[i].id, items[i].quantity, items[i].price)
  {
    if i > 0 {
      OrderLineAt(orderId, items[1..], i - 1);
    }
  }

  /** The order's `total_amount` is what its lines add up to. */
  lemma {:induction false} OrderLinesTotal(customer: Customer, orderId: string, items: seq<CartItem>)
    ensures LinesTotal(OrderLines(orderId, items)) == NewOrder(customer, items).totalAmount
  {
    if items != [] {
      OrderLinesTotal(customer, orderId, items[1..]);
      var lines := OrderLines(orderId, items);
      assert lines[1..] == OrderLines(orderId, items[1..]);
    }
  }

  /** A cart with one entry per product gives an order with one line per product. */
  lemma OrderLinesDistinct(orderId: string, items: seq<CartItem>)
    requires DistinctIds(items)
    ensures var lines := OrderLines(orderId, items);
      forall i, j :: 0 <= i < j < |lines| ==> lines[i].productId != lines[j].productId
  {
    var lines := OrderLines(orderId, items);
    forall i, j | 0 <= i < j < |lines|
      ensures lines[i].productId != lines[j].productId
    {
      OrderLineAt(orderId, items, i);
      OrderLineAt(orderId, items, j);
    }
  }

  /** The second write is issued for every non-empty cart exactly when the
      first returned a row, and then carries one line per entry. */
  lemma PayloadNeedsOrderRow(first: OrderInsert, items: seq<CartItem>)
    requires items != []
    ensures ItemsPayload(first, items).Some? <==> first.Inserted?
    ensures first.Inserted? ==> |ItemsPayload(first, items).value| == |items|
  {
  }
}
