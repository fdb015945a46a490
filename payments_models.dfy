/**
 * The payment record of the Paynow integration: its status enumeration,
 * the defaults of a new payment and its display string. The record's UUID
 * primary key is not modelled; payments are found by their unique reference.
 */
module PaymentModels {
  import opened Basics
  import opened Text
  import OrderModels

  datatype PaymentStatus = Pending | Paid | Failed | Cancelled

  /** The stored value of each status. */
  function StatusCode(s: PaymentStatus): (r: string)
    ensures |r| >= 4 && ' ' !in r
  {
    match s
    case Pending => "PENDING"
    case Paid => "PAID"
    case Failed => "FAILED"
    case Cancelled => "CANCELLED"
  }

  function StatusFromCode(code: string): (r: Option<PaymentStatus>)
    ensures r.Some? ==> StatusCode(r.value) == code
  {
    if code == "PENDING" then Some(Pending)
    else if code == "PAID" then Some(Paid)
    else if code == "FAILED" then Some(Failed)
    else if code == "CANCELLED" then Some(Cancelled)
    else None
  }

  lemma StatusCodeRoundTrip(s: PaymentStatus)
    ensures StatusFromCode(StatusCode(s)) == Some(s)
  {
  }

  /** A payment attempt; the order link is optional. */
  datatype Payment = Payment(
    order: Option<OrderModels.OrderId>,
    amount: real,
    description: string,
    reference: string,
    paynowReference: Option<string>,
    status: PaymentStatus)

  /** A payment created with only the required fields given. */
  function NewPayment(order: Option<OrderModels.OrderId>, amount: real, reference: string): (p: Payment)
    ensures p.order == order && p.amount == amount && p.reference == reference
    ensures p.status == Pending && p.description == "Item Purchase" && p.paynowReference.None?
  {
    Payment(order, amount, "Item Purchase", reference, None, Pending)
  }

  /** How an optional order id prints: its digits, or None. */
  function OrderIdText(order: Option<OrderModels.OrderId>): (r: string)
    ensures ' ' !in r
  {
    if order.Some? then NatToString(order.value) else "None"
  }

  /** str(payment): "Payment for Order {order id} - {status}". */
  function PaymentStr(p: Payment): (r: string)
    ensures |r| >= 21 + |StatusCode(p.status)|
    ensures r[..18] == "Payment for Order " && r[|r| - |StatusCode(p.status)|..] == StatusCode(p.status)
  {
    "Payment for Order " + OrderIdText(p.order) + " - " + StatusCode(p.status)
  }

  /** The display string splits into its words, from which the order id and status read back. */
  lemma PaymentStrWords(p: Payment)
    ensures Split(PaymentStr(p), ' ') == ["Payment", "for", "Order", OrderIdText(p.order), "-", StatusCode(p.status)]
    ensures StatusFromCode(Split(PaymentStr(p), ' ')[5]) == Some(p.status)
    ensures p.order.Some? ==> ParseNat(Split(PaymentStr(p), ' ')[3]) == p.order.value
  {
    var id, code := OrderIdText(p.order), StatusCode(p.status);
    var words := ["Payment", "for", "Order", id, "-", code];
    JoinWords(id, code);
    forall i | 0 <= i < |words|
      ensures ' ' !in words[i]
    {
    }
    SplitOfJoin(words, ' ');
    StatusCodeRoundTrip(p.status);
    if p.order.Some? {
      ParseNatToString(p.order.value);
    }
  }

  lemma JoinWords(id: string, code: string)
    ensures Join(["Payment", "for", "Order", id, "-", code], " ") == "Payment for Order " + id + " - " + code
  {
    JoinCons("-", [code], " ");
    JoinCons(id, ["-", code], " ");
    JoinCons("Order", [id, "-", code], " ");
    JoinCons("for", ["Order", id, "-", code], " ");
    JoinCons("Payment", ["for", "Order", id, "-", code], " ");
    assert ["Payment"] + ["for", "Order", id, "-", code] == ["Payment", "for", "Order", id, "-", code];
  }
}
