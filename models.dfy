/**
 * The order data model: the status and payment-method enumerations with their
 * defaults, money as fixed-point cents, order items with their price snapshot,
 * and the order record itself.
 */
module Models {
  import opened Wrappers

  type UserId = int
  type ProductId = int
  type OrderId = int

  /** A decimal amount with two fractional digits, held as a whole number of cents. */
  type Cents = int

  /** A money column holds at most 10 digits, 2 of them after the decimal point. */
  const MaxDigits: nat := 10
  const DecimalPlaces: nat := 2
  const MaxCents: Cents := 9_999_999_999

  // ---------------------------------------------------------------- status

  datatype Status = Pending | Confirmed | Processing | Shipped | Delivered | Cancelled
  {
    /** The code stored in the status column. */
    function Code(): string {
      match this
      case Pending => "pending"
      case Confirmed => "confirmed"
      case Processing => "processing"
      case Shipped => "shipped"
      case Delivered => "delivered"
      case Cancelled => "cancelled"
    }
  }

  /** The status an order has when none is given. */
  const DefaultStatus: Status := Pending

  /** Reads a stored status code back; every code names exactly one status. */
  function StatusFromCode(s: string): (r: Option<Status>)
    ensures forall st: Status :: st.Code() == s <==> r == Some(st)
  {
    if s == "pending" then Some(Pending)
    else if s == "confirmed" then Some(Confirmed)
    else if s == "processing" then Some(Processing)
    else if s == "shipped" then Some(Shipped)
    else if s == "delivered" then Some(Delivered)
    else if s == "cancelled" then Some(Cancelled)
    else None
  }

  /** Only an order that has not yet gone into processing may be cancelled. */
  predicate Cancellable(s: Status) {
    s == Pending || s == Confirmed
  }

  // -------------------------------------------------------- payment method

  datatype PaymentMethod = Cash | Card | Payme | Click
  {
    function Code(): string {
      match this
      case Cash => "cash"
      case Card => "card"
      case Payme => "payme"
      case Click => "click"
    }
  }

  const DefaultPaymentMethod: PaymentMethod := Cash

  /** Reads a payment-method code; exactly the four choices are accepted. */
  function PaymentMethodFromCode(s: string): (r: Option<PaymentMethod>)
    ensures forall m: PaymentMethod :: m.Code() == s <==> r == Some(m)
  {
    if s == "cash" then Some(Cash)
    else if s == "card" then Some(Card)
    else if s == "payme" then Some(Payme)
    else if s == "click" then Some(Click)
    else None
  }

  // ----------------------------------------------------------------- items

  /** A size variant, identified by its product and its size name (such as "42"). */
  datatype SizeKey = SizeKey(product: ProductId, name: string)

  /**
   * One line of an order: the product, the size variant if any, the quantity and
   * the unit price copied from the product when the order was placed.
   */
  datatype OrderItem = OrderItem(product: ProductId, size: Option<SizeKey>, quantity: int, price: Cents)
  {
    /** The line total. With a positive quantity it is zero exactly when the price is. */
    function Subtotal(): (r: Cents)
      ensures quantity >= 1 ==> (r == 0 <==> price == 0)
      ensures quantity >= 1 && price >= 0 ==> r >= price
    {
      price * quantity
    }
  }

  /** The sum of the line totals. */
  function SumSubtotals(items: seq<OrderItem>): Cents {
    if items == [] then 0
    else SumSubtotals(items[..|items| - 1]) + items[|items| - 1].Subtotal()
  }

  // ---------------------------------------------------------------- orders

  /** The delivery details copied into the order when it is placed. */
  datatype Delivery = Delivery(
    fullName: string,
    phone: string,
    address: string,
    city: string,
    region: string,
    postalCode: string)

  datatype Order = Order(
    id: OrderId,
    owner: UserId,
    status: Status,
    delivery: Delivery,
    payment: PaymentMethod,
    isPaid: bool,
    paidAt: Option<int>,
    subtotal: Cents,
    deliveryPrice: Cents,
    totalPrice: Cents,
    note: string,
    items: seq<OrderItem>)

  /**
   * A freshly placed order: the status, payment flag and payment time take their
   * defaults, and the total is the subtotal plus the delivery price.
   */
  function NewOrder(id: OrderId, owner: UserId, delivery: Delivery, payment: PaymentMethod,
                    subtotal: Cents, deliveryPrice: Cents, note: string, items: seq<OrderItem>): (o: Order)
    ensures o.status == DefaultStatus && !o.isPaid && o.paidAt == None
    ensures o.totalPrice - o.deliveryPrice == o.subtotal == subtotal
    ensures o.id == id && o.owner == owner && o.delivery == delivery && o.payment == payment
    ensures o.deliveryPrice == deliveryPrice && o.note == note && o.items == items
  {
    Order(id, owner, DefaultStatus, delivery, payment, false, None,
          subtotal, deliveryPrice, subtotal + deliveryPrice, note, items)
  }

  /**
   * What every stored order satisfies: the total is the subtotal plus the
   * delivery price, the subtotal is the sum of the line totals, the delivery
   * price is not negative, there is at least one line, every quantity is
   * positive and every size variant named exists.
   */
  predicate OrderWellFormed(o: Order, variants: set<SizeKey>) {
    && o.totalPrice == o.subtotal + o.deliveryPrice
    && o.subtotal == SumSubtotals(o.items)
    && o.deliveryPrice >= 0
    && |o.items| >= 1
    && forall i :: 0 <= i < |o.items| ==>
         o.items[i].quantity >= 1 && (o.items[i].size.Some? ==> o.items[i].size.value in variants)
  }
}
