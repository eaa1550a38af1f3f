/** The Order schema: a value snapshot of the purchased items, the status and payment
    enumerations with their defaults, the required fields, and the hook that numbers an
    order when it is first saved. */
module OrderModel {
  import opened Base
  import opened Strings

  const PENDING := "Pending"
  const PROCESSING := "Processing"
  const SHIPPED := "Shipped"
  const DELIVERED := "Delivered"
  const CANCELLED := "Cancelled"
  const ORDER_STATUSES: set<string> := {PENDING, PROCESSING, SHIPPED, DELIVERED, CANCELLED}

  const CASH_ON_DELIVERY := "Cash on Delivery"
  const PAYMENT_METHODS: set<string> := {CASH_ON_DELIVERY}

  /** A copied line of the order: the product reference plus the values shown at checkout. */
  datatype OrderItem = OrderItem(product: ObjectId, title: string, price: int, quantity: int,
                                 size: string, color: string, image: string)

  datatype ShippingAddress = ShippingAddress(fullName: string, phone: string, address: string,
                                             city: string, postalCode: string, district: string)

  /** An order document. `orderNumber` is "" until one is assigned. */
  datatype Order = Order(
    id: ObjectId,
    user: ObjectId,
    orderNumber: string,
    items: seq<OrderItem>,
    shippingAddress: ShippingAddress,
    totalAmount: int,
    paymentMethod: string,
    orderStatus: string,
    notes: string,
    createdAt: nat)

  /** The schema's validators: orderNumber is required (a required string must be
      non-empty), and payment method and status lie in their enumerations. */
  predicate ValidOrder(o: Order)
  {
    o.orderNumber != "" && o.paymentMethod in PAYMENT_METHODS && o.orderStatus in ORDER_STATUSES
  }

  /** A new document: the payment method and status take their schema defaults. */
  function NewOrder(id: ObjectId, user: ObjectId, orderNumber: string, items: seq<OrderItem>,
                    shippingAddress: ShippingAddress, totalAmount: int, notes: string, now: nat): (o: Order)
    ensures o.paymentMethod == CASH_ON_DELIVERY && o.orderStatus == PENDING
    ensures o.items == items && o.shippingAddress == shippingAddress && o.totalAmount == totalAmount
    ensures o.user == user && o.orderNumber == orderNumber && o.notes == notes && o.id == id
    ensures orderNumber != "" ==> ValidOrder(o)
  {
    Order(id, user, orderNumber, items, shippingAddress, totalAmount, CASH_ON_DELIVERY, PENDING, notes, now)
  }

  // ------------------------------------------------------------------ numbering

  const ORDER_PREFIX := "BB"

  /** `BB${Date.now()}${String(count + 1).padStart(4, '0')}` */
  function OrderNumber(now: nat, count: nat): (s: string)
    ensures |s| >= 2 + 1 + 4
    ensures s[..2] == ORDER_PREFIX
  {
    ORDER_PREFIX + Decimal(now) + PadStart(Decimal(count + 1), 4, '0')
  }

  lemma Slices(a: string, b: string, c: string)
    ensures (a + b + c)[|a|..] == b + c
    ensures (a + b + c)[|a|..|a| + |b|] == b
    ensures (a + b + c)[|a| + |b|..] == c
  {
  }

  /** The number splits back into its timestamp and its counter: after the prefix come the
      timestamp's digits, then count + 1 written with at least four digits. */
  lemma OrderNumberDecodes(now: nat, count: nat)
    ensures var s := OrderNumber(now, count);
            var w := |Decimal(now)|;
            |s| >= 2 + w + 4 && AllDigits(s[2..2 + w]) && AllDigits(s[2 + w..]) &&
            ValueOf(s[2..2 + w]) == now && ValueOf(s[2 + w..]) == count + 1
  {
    Slices(ORDER_PREFIX, Decimal(now), PadStart(Decimal(count + 1), 4, '0'));
    PaddedDecimalValue(count + 1, 4);
    DecimalRoundTrip(now);
  }

  /** Two orders placed in the same millisecond with different counts get different numbers. */
  lemma SameMillisecondDistinct(now: nat, c1: nat, c2: nat)
    requires c1 != c2
    ensures OrderNumber(now, c1) != OrderNumber(now, c2)
  {
    OrderNumberDecodes(now, c1);
    OrderNumberDecodes(now, c2);
  }

  /** The number written after the prefix and `w` more characters, or -1 when what
      follows is missing or not all digits. */
  function CounterAt(s: string, w: nat): int
  {
    if 2 + w <= |s| && AllDigits(s[2 + w..]) then ValueOf(s[2 + w..]) else -1
  }

  /** What follows the timestamp's digits denotes count + 1. */
  lemma CounterTail(now: nat, count: nat)
    ensures 2 + |Decimal(now)| + 4 <= |OrderNumber(now, count)|
    ensures CounterAt(OrderNumber(now, count), |Decimal(now)|) == count + 1
  {
    Slices(ORDER_PREFIX, Decimal(now), PadStart(Decimal(count + 1), 4, '0'));
    PaddedDecimalValue(count + 1, 4);
  }

  /** The counter part of a number whose timestamp is shorter than `w` digits, read from
      position 2 + w, denotes less than the counter itself. */
  lemma ShiftedCounterIsSmaller(t1: nat, c1: nat, w: nat)
    requires |Decimal(t1)| < w
    requires |OrderNumber(t1, c1)| - (2 + w) >= 4
    ensures CounterAt(OrderNumber(t1, c1), w) < c1 + 1
  {
    var d1 := Decimal(t1);
    var n1 := Decimal(c1 + 1);
    var p1 := PadStart(n1, 4, '0');
    var s1 := OrderNumber(t1, c1);
    Slices(ORDER_PREFIX, d1, p1);
    assert s1[2 + |d1|..] == p1;
    assert |p1| > 4 && p1 == n1 by {
      assert |p1| == |n1|;
      assert p1[0..] == n1;
    }
    var k := w - |d1|;
    assert s1[2 + w..] == n1[k..];
    ProperSuffixIsSmaller(c1 + 1, k);
  }

  /** Dropping leading digits of a number's decimal form leaves a smaller number. */
  lemma ProperSuffixIsSmaller(n: nat, k: nat)
    requires n >= 1 && 0 < k <= |Decimal(n)|
    ensures AllDigits(Decimal(n)[k..]) && ValueOf(Decimal(n)[k..]) < n
  {
    var d := Decimal(n);
    var tail := d[k..];
    assert forall i :: 0 <= i < |tail| ==> tail[i] == d[k + i];
    ValueBelowPow10(tail);
    DecimalAtLeastPow10(n);
    Pow10Monotone(|tail|, |d| - 1);
  }

  /** Placements made one after another, with a clock that does not go back and a count
      that grows, never repeat a number, even when the timestamp gains a digit. */
  lemma SequentialNumbersDistinct(t1: nat, c1: nat, t2: nat, c2: nat)
    requires t1 <= t2 && c1 < c2
    ensures OrderNumber(t1, c1) != OrderNumber(t2, c2)
  {
    DecimalLengthMonotone(t1, t2);
    CounterTail(t2, c2);
    if |Decimal(t1)| == |Decimal(t2)| {
      CounterTail(t1, c1);
    } else if |OrderNumber(t1, c1)| == |OrderNumber(t2, c2)| {
      ShiftedCounterIsSmaller(t1, c1, |Decimal(t2)|);
    }
  }

  // ------------------------------------------------------------------ saving

  /** The pre-save hook: number the order only when it has no number yet.
      `count` is the number of orders already stored. */
  function NumberIfMissing(o: Order, count: nat, now: nat): (r: Order)
    ensures r.orderNumber != ""
    ensures o.orderNumber != "" ==> r == o
    ensures o.orderNumber == "" ==> r == o.(orderNumber := OrderNumber(now, count))
  {
    if o.orderNumber == "" then o.(orderNumber := OrderNumber(now, count)) else o
  }

  /** Running the hook again changes nothing, whatever the count and clock then say. */
  lemma NumberIfMissingIdempotent(o: Order, c1: nat, t1: nat, c2: nat, t2: nat)
    ensures NumberIfMissing(NumberIfMissing(o, c1, t1), c2, t2) == NumberIfMissing(o, c1, t1)
  {
  }

  /** `order.save()` as Mongoose runs it: the schema validators first (they are Mongoose's
      own first pre-save hook), then the user hook. None is a ValidationError. */
  function SaveAsWritten(o: Order, count: nat, now: nat): (r: Option<Order>)
    ensures r.Some? ==> r.value == o
  {
    if !ValidOrder(o) then None else Some(NumberIfMissing(o, count, now))
  }

  /** The hook cannot rescue an order saved without a number: validation rejects it first. */
  lemma HookNeverNumbersAsWritten(o: Order, count: nat, now: nat)
    requires o.orderNumber == ""
    ensures SaveAsWritten(o, count, now).None?
  {
  }

  /** The save the hook was written for: number first, then validate. */
  function Save(o: Order, count: nat, now: nat): (r: Option<Order>)
    ensures r.Some? <==> o.paymentMethod in PAYMENT_METHODS && o.orderStatus in ORDER_STATUSES
    ensures r.Some? ==> ValidOrder(r.value)
    ensures r.Some? && o.orderNumber != "" ==> r.value == o
    ensures r.Some? && o.orderNumber == "" ==> r.value.orderNumber == OrderNumber(now, count)
  {
    var numbered := NumberIfMissing(o, count, now);
    if ValidOrder(numbered) then Some(numbered) else None
  }

  /** The two agree on every order that already carries a number, the only kind the
      order route saves. */
  lemma SaveAgreesWhenNumbered(o: Order, count: nat, now: nat)
    requires o.orderNumber != ""
    ensures Save(o, count, now) == SaveAsWritten(o, count, now)
  {
  }
}
