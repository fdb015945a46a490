/**
 * The order admin: the line total shown beside each order item, the two bulk
 * status actions, and the change form, in which the order number and the
 * total are read-only.
 */
module OrderAdmin {
  import opened Basics
  import opened OrderModels
  import opened Store

  /** item_total: quantity times the stored unit price. */
  function ItemTotal(item: OrderItem): (r: real)
    ensures item.price >= 0.0 ==> r >= 0.0
    ensures item.quantity == 0 ==> r == 0.0
    ensures item.quantity == 1 ==> r == item.price
  {
    item.quantity as real * item.price
  }

  /** The sum of the line totals of some order items; never negative when no price is. */
  function ItemsTotal(items: seq<OrderItem>): (r: real)
    ensures (forall i :: 0 <= i < |items| ==> items[i].price >= 0.0) ==> r >= 0.0
  {
    if items == [] then 0.0 else ItemsTotal(items[..|items| - 1]) + ItemTotal(items[|items| - 1])
  }

  /** The total of two runs of items is the sum of their totals. */
  lemma {:induction false} ItemsTotalAppend(a: seq<OrderItem>, b: seq<OrderItem>)
    ensures ItemsTotal(a + b) == ItemsTotal(a) + ItemsTotal(b)
    decreases |b|
  {
    if b != [] {
      var init := b[..|b| - 1];
      assert (a + b)[..|a + b| - 1] == a + init;
      ItemsTotalAppend(a, init);
    } else {
      assert a + b == a;
    }
  }

  /** queryset.update(status=s): every selected order that exists gets status s. */
  function WithStatus(orders: map<OrderId, Order>, selected: set<OrderId>, s: OrderStatus): (r: map<OrderId, Order>)
    ensures r.Keys == orders.Keys
  {
    map id | id in orders :: if id in selected then orders[id].(status := s) else orders[id]
  }

  /**
   * The bulk update sets the status of the selected orders whatever it was,
   * leaves every other field of them and every unselected order as it was.
   */
  lemma WithStatusEffect(orders: map<OrderId, Order>, selected: set<OrderId>, s: OrderStatus)
    ensures var r := WithStatus(orders, selected, s);
      r.Keys == orders.Keys &&
      (forall id :: id in orders && id in selected ==> r[id].status == s) &&
      (forall id :: id in orders && id !in selected ==> r[id] == orders[id]) &&
      (forall id :: id in orders ==> r[id].(status := orders[id].status) == orders[id])
  {
  }

  /** Running an action twice is the same as running it once. */
  lemma WithStatusIdempotent(orders: map<OrderId, Order>, selected: set<OrderId>, s: OrderStatus)
    ensures WithStatus(WithStatus(orders, selected, s), selected, s) == WithStatus(orders, selected, s)
  {
  }

  /** A status update keeps the order numbers, so they stay unique. */
  lemma WithStatusKeepsNumbers(orders: map<OrderId, Order>, selected: set<OrderId>, s: OrderStatus)
    requires UniqueOrderNumbers(orders)
    ensures UniqueOrderNumbers(WithStatus(orders, selected, s))
  {
  }

  /** The admin action behind both buttons, on the order table. */
  method SetStatus(db: Db, selected: set<OrderId>, s: OrderStatus)
    requires db.Valid()
    modifies db
    ensures db.Valid()
    ensures db.orders == WithStatus(old(db.orders), selected, s)
    ensures db.variants == old(db.variants) && db.promos == old(db.promos) && db.items == old(db.items)
    ensures db.payments == old(db.payments) && db.categories == old(db.categories)
    ensures db.nextOrderId == old(db.nextOrderId) && db.nextCategoryId == old(db.nextCategoryId)
  {
    WithStatusKeepsNumbers(db.orders, selected, s);
    db.orders := WithStatus(db.orders, selected, s);
  }

  /** mark_as_shipped: the selected orders get status S. */
  method MarkAsShipped(db: Db, selected: set<OrderId>)
    requires db.Valid()
    modifies db
    ensures db.Valid()
    ensures db.orders == WithStatus(old(db.orders), selected, Shipped)
    ensures db.variants == old(db.variants) && db.promos == old(db.promos) && db.items == old(db.items)
    ensures db.payments == old(db.payments) && db.categories == old(db.categories)
    ensures db.nextOrderId == old(db.nextOrderId) && db.nextCategoryId == old(db.nextCategoryId)
  {
    SetStatus(db, selected, Shipped);
  }

  /** mark_as_delivered: the selected orders get status D. */
  method MarkAsDelivered(db: Db, selected: set<OrderId>)
    requires db.Valid()
    modifies db
    ensures db.Valid()
    ensures db.orders == WithStatus(old(db.orders), selected, Delivered)
    ensures db.variants == old(db.variants) && db.promos == old(db.promos) && db.items == old(db.items)
    ensures db.payments == old(db.payments) && db.categories == old(db.categories)
    ensures db.nextOrderId == old(db.nextOrderId) && db.nextCategoryId == old(db.nextCategoryId)
  {
    SetStatus(db, selected, Delivered);
  }

  /** The fields the change form lets staff edit. */
  datatype OrderForm = OrderForm(
    user: UserId,
    status: OrderStatus,
    paymentMethod: string,
    paymentStatus: bool,
    shippingAddress: string,
    billingAddress: string,
    trackingNumber: Option<string>)

  /** Saving the change form writes the editable fields only. */
  function AdminSave(o: Order, form: OrderForm): (r: Order)
    ensures r.orderNumber == o.orderNumber && r.totalPrice == o.totalPrice
    ensures r.promoCode == o.promoCode && r.discountAmount == o.discountAmount
    ensures r.status == form.status && r.paymentStatus == form.paymentStatus
    ensures r.user == form.user && r.paymentMethod == form.paymentMethod && r.trackingNumber == form.trackingNumber
    ensures r.shippingAddress == form.shippingAddress && r.billingAddress == form.billingAddress
    ensures r.(user := o.user, status := o.status, paymentMethod := o.paymentMethod, paymentStatus := o.paymentStatus,
      shippingAddress := o.shippingAddress, billingAddress := o.billingAddress, trackingNumber := o.trackingNumber) == o
  {
    o.(user := form.user, status := form.status, paymentMethod := form.paymentMethod,
       paymentStatus := form.paymentStatus, shippingAddress := form.shippingAddress,
       billingAddress := form.billingAddress, trackingNumber := form.trackingNumber)
  }

  /** Saving a form that shows an order's own values changes nothing. */
  lemma AdminSaveUnchanged(o: Order)
    ensures AdminSave(o, OrderForm(o.user, o.status, o.paymentMethod, o.paymentStatus,
      o.shippingAddress, o.billingAddress, o.trackingNumber)) == o
  {
  }
}
