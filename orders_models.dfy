/**
 * The order app's records: promo codes, orders with their status codes and
 * defaults, and order lines, with their display strings. Decimal amounts
 * are exact reals; str() of a Decimal is a parameter `decimalText`.
 */
module OrderModels {
  import opened Basics
  import opened Text
  import opened ProductModels

  type UserId = nat
  type OrderId = nat

  /** The requesting user as the order code sees it: an id and the staff flag. */
  datatype User = User(id: UserId, isStaff: bool)

  /** discount_type; the field's choices are PERCENT and FIXED, but the column accepts any text. */
  datatype DiscountType = Percent | Fixed | OtherType(text: string)

  /**
   * A promo code. `validFrom`/`validTo` are instants on one integer clock;
   * a missing `validTo` means the code never expires.
   */
  datatype PromoCode = PromoCode(
    code: string,
    discountType: DiscountType,
    value: real,
    isActive: bool,
    validFrom: int,
    validTo: Option<int>,
    usageLimit: nat,
    minPurchaseAmount: real)

  /** A promo code created with only the required fields given. */
  function NewPromoCode(code: string, discountType: DiscountType, value: real, validFrom: int): (p: PromoCode)
    ensures p.code == code && p.discountType == discountType && p.value == value && p.validFrom == validFrom
    ensures p.isActive && p.validTo.None? && p.usageLimit == 100 && p.minPurchaseAmount == 0.0
  {
    PromoCode(code, discountType, value, true, validFrom, None, 100, 0.0)
  }

  predicate EndsWith(s: string, suffix: string)
  {
    |suffix| <= |s| && s[|s| - |suffix|..] == suffix
  }

  /**
   * str(promo): "CODE (V% off)" for a percentage, "CODE ($V off)" for any
   * other type.
   */
  function PromoCodeStr(p: PromoCode, decimalText: real -> string): (r: string)
    requires '%' !in decimalText(p.value)
    ensures |r| > |p.code| + 2 && r[..|p.code| + 2] == p.code + " ("
    ensures p.discountType == Percent <==> EndsWith(r, "% off)")
    ensures p.discountType == Percent ==>
      |r| == |p.code| + |decimalText(p.value)| + 8 && r[|p.code| + 2..|r| - 6] == decimalText(p.value)
    ensures p.discountType != Percent ==> r[|p.code| + 2] == '$' && EndsWith(r, " off)")
    ensures p.discountType != Percent ==>
      |r| == |p.code| + |decimalText(p.value)| + 8 && r[|p.code| + 3..|r| - 5] == decimalText(p.value)
  {
    var v := decimalText(p.value);
    if p.discountType == Percent then
      var r := p.code + " (" + v + "% off)";
      assert r[|r| - 6..] == "% off)";
      r
    else
      var r := p.code + " ($" + v + " off)";
      assert r[|r| - 6] == if |v| > 0 then v[|v| - 1] else '$';
      assert r[|r| - 5..] == " off)";
      r
  }

  /**
   * The label tells promo codes apart: two codes of the same length with the
   * same label have the same code, the same kind of discount (percentage or
   * not) and the same value text.
   */
  lemma PromoCodeStrDistinguishes(p: PromoCode, q: PromoCode, decimalText: real -> string)
    requires '%' !in decimalText(p.value) && '%' !in decimalText(q.value)
    requires |p.code| == |q.code| && PromoCodeStr(p, decimalText) == PromoCodeStr(q, decimalText)
    ensures p.code == q.code
    ensures p.discountType == Percent <==> q.discountType == Percent
    ensures decimalText(p.value) == decimalText(q.value)
  {
    var r := PromoCodeStr(p, decimalText);
    assert p.code == r[..|p.code| + 2][..|p.code|] == q.code;
  }

  datatype OrderStatus = Pending | OnHold | Processing | Shipped | Delivered | Cancelled

  /** The stored code of each status. */
  function StatusCode(s: OrderStatus): (r: string)
    ensures 1 <= |r| <= 2
  {
    match s
    case Pending => "P"
    case OnHold => "OH"
    case Processing => "PR"
    case Shipped => "S"
    case Delivered => "D"
    case Cancelled => "C"
  }

  /** Reading a stored code back; anything but the six codes is not a status. */
  function StatusFromCode(code: string): (r: Option<OrderStatus>)
    ensures r.Some? ==> StatusCode(r.value) == code
  {
    if code == "P" then Some(Pending)
    else if code == "OH" then Some(OnHold)
    else if code == "PR" then Some(Processing)
    else if code == "S" then Some(Shipped)
    else if code == "D" then Some(Delivered)
    else if code == "C" then Some(Cancelled)
    else None
  }

  /** Every status is stored under a code that reads back as that status. */
  lemma StatusCodeRoundTrip(s: OrderStatus)
    ensures StatusFromCode(StatusCode(s)) == Some(s)
  {
  }

  const MaxOrderNumberLength := 20

  /** An order. The promo code is referred to by its code, which is unique. */
  datatype Order = Order(
    user: UserId,
    orderNumber: string,
    status: OrderStatus,
    shippingAddress: string,
    billingAddress: string,
    totalPrice: real,
    paymentMethod: string,
    paymentStatus: bool,
    trackingNumber: Option<string>,
    promoCode: Option<string>,
    discountAmount: real)

  /** An order created from the required fields: pending, unpaid, no discount. */
  function NewOrder(user: UserId, orderNumber: string, shippingAddress: string, billingAddress: string,
                    totalPrice: real, paymentMethod: string): (o: Order)
    ensures o.user == user && o.orderNumber == orderNumber && o.totalPrice == totalPrice
    ensures o.shippingAddress == shippingAddress && o.billingAddress == billingAddress
    ensures o.paymentMethod == paymentMethod
    ensures o.status == Pending && !o.paymentStatus && o.discountAmount == 0.0
    ensures o.trackingNumber.None? && o.promoCode.None?
  {
    Order(user, orderNumber, Pending, shippingAddress, billingAddress, totalPrice, paymentMethod,
          false, None, None, 0.0)
  }

  /** One line of an order; quantity is a PositiveIntegerField. */
  datatype OrderItem = OrderItem(order: OrderId, variant: VariantId, quantity: nat, price: real)

  /** str(item): "{quantity} x {product name} in order {order number}". */
  function OrderItemStr(item: OrderItem, productName: string, orderNumber: string): (r: string)
    ensures |r| == |NatToString(item.quantity)| + |productName| + |orderNumber| + 13
    ensures r[..|NatToString(item.quantity)|] == NatToString(item.quantity)
    ensures r[|r| - |orderNumber|..] == orderNumber
  {
    NatToString(item.quantity) + " x " + productName + " in order " + orderNumber
  }

  /** The quantity reads back from the text before the first space; the rest names the product and the order. */
  lemma OrderItemStrQuantity(item: OrderItem, productName: string, orderNumber: string)
    ensures SplitOnce(OrderItemStr(item, productName, orderNumber), ' ').Some?
    ensures var head := SplitOnce(OrderItemStr(item, productName, orderNumber), ' ').value.0;
      (forall i :: 0 <= i < |head| ==> '0' <= head[i] <= '9') && ParseNat(head) == item.quantity
    ensures SplitOnce(OrderItemStr(item, productName, orderNumber), ' ').value.1 ==
      "x " + productName + " in order " + orderNumber
  {
    var q := NatToString(item.quantity);
    var r := OrderItemStr(item, productName, orderNumber);
    assert r == q + [' '] + ("x " + productName + " in order " + orderNumber);
    SplitOnceAfter(q, "x " + productName + " in order " + orderNumber, ' ');
    ParseNatToString(item.quantity);
  }
}
