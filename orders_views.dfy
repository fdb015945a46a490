/**
 * Order placement and the order list's visibility rule. Placement runs in
 * one transaction: any error leaves every table as it was.
 */
module OrderViews {
  import opened Basics
  import opened Text
  import opened ProductModels
  import opened OrderModels
  import opened OrderSerializers
  import opened OrderAdmin
  import opened Store

  // ---------------------------------------------------------------------
  // Visibility

  /** get_queryset: staff see every order, anyone else only their own. */
  function Visible(orders: map<OrderId, Order>, user: User): (r: set<OrderId>)
    ensures r <= orders.Keys
    ensures user.isStaff ==> r == orders.Keys
    ensures !user.isStaff ==> forall id :: id in orders ==> (id in r <==> orders[id].user == user.id)
  {
    set id | id in orders && (user.isStaff || orders[id].user == user.id)
  }

  // ---------------------------------------------------------------------
  // Prices

  /** `discount_price or price`: a missing or zero discount price falls back to the price. */
  function UnitPrice(v: Variant): (r: real)
    ensures v.discountPrice.Some? && v.discountPrice.value != 0.0 ==> r == v.discountPrice.value
    ensures v.discountPrice.None? || v.discountPrice.value == 0.0 ==> r == v.price
  {
    if v.discountPrice.Some? && v.discountPrice.value != 0.0 then v.discountPrice.value else v.price
  }

  /** Every line names a variant of the table. */
  predicate LinesIn(variants: map<VariantId, Variant>, lines: seq<Line>)
  {
    forall i :: 0 <= i < |lines| ==> lines[i].variant in variants
  }

  /** The sum of unit price times quantity over the lines. */
  function Subtotal(variants: map<VariantId, Variant>, lines: seq<Line>): (r: real)
    requires LinesIn(variants, lines)
    ensures (forall i :: 0 <= i < |lines| ==> UnitPrice(variants[lines[i].variant]) >= 0.0) ==> r >= 0.0
  {
    if lines == [] then 0.0
    else
      var last := lines[|lines| - 1];
      Subtotal(variants, lines[..|lines| - 1]) + UnitPrice(variants[last.variant]) * last.quantity as real
  }

  /** The discount: a share of the subtotal, a fixed amount, or nothing. */
  function Discount(promo: Option<PromoCode>, subtotal: real): (r: real)
    ensures promo.None? ==> r == 0.0
    ensures promo.Some? && promo.value.discountType == Percent ==> r * 100.0 == subtotal * promo.value.value
    ensures promo.Some? && promo.value.discountType == Fixed ==> r == promo.value.value
    ensures promo.Some? && promo.value.discountType.OtherType? ==> r == 0.0
  {
    if promo.None? then 0.0
    else if promo.value.discountType == Percent then subtotal * (promo.value.value / 100.0)
    else if promo.value.discountType == Fixed then promo.value.value
    else 0.0
  }

  /** A percentage between 0 and 100 of a non-negative subtotal never exceeds it. */
  lemma PercentDiscountBounded(promo: PromoCode, subtotal: real)
    requires promo.discountType == Percent && 0.0 <= promo.value <= 100.0 && subtotal >= 0.0
    ensures 0.0 <= Discount(Some(promo), subtotal) <= subtotal
    ensures subtotal - Discount(Some(promo), subtotal) >= 0.0
  {
    var share := promo.value / 100.0;
    assert 0.0 <= share <= 1.0;
    assert subtotal - subtotal * share == subtotal * (1.0 - share);
    MulNonNegative(subtotal, share);
    MulNonNegative(subtotal, 1.0 - share);
  }

  lemma MulNonNegative(a: real, b: real)
    requires a >= 0.0 && b >= 0.0
    ensures a * b >= 0.0
  {
  }

  /** A fixed amount larger than the subtotal is not clamped: the total goes negative. */
  lemma FixedDiscountNotClamped()
    ensures var promo := NewPromoCode("SAVE10", Fixed, 10.0, 0);
      5.0 - Discount(Some(promo), 5.0) == -5.0
  {
  }

  /** An unknown discount type gives no discount, like no promo at all. */
  lemma OtherTypeGivesNothing(promo: PromoCode, subtotal: real)
    requires promo.discountType.OtherType?
    ensures Discount(Some(promo), subtotal) == Discount(None, subtotal) == 0.0
  {
  }

  // ---------------------------------------------------------------------
  // The promo code

  datatype PlaceError =
    | InvalidPromo
    | NotEnoughStock(variant: VariantId, stock: nat)
    | DuplicateOrderNumber
    | NegativeStock
    | NotAnOrder

  /**
   * The promo lookup of perform_create: no code or an empty one means no
   * promo; otherwise an active promo stored under the upper-cased code.
   */
  function LookupPromo(promos: map<string, PromoCode>, code: Option<string>): (r: Result<Option<PromoCode>, PlaceError>)
    ensures code.None? || code.value == "" ==> r == Ok(None)
    ensures code.Some? && code.value != "" ==>
      (r.Ok? <==> Upper(code.value) in promos && promos[Upper(code.value)].isActive) &&
      (r.Ok? ==> r.value == Some(promos[Upper(code.value)])) &&
      (r.Err? ==> r.error == InvalidPromo)
  {
    if code.None? || code.value == "" then Ok(None)
    else
      var key := Upper(code.value);
      if key in promos && promos[key].isActive then Ok(Some(promos[key])) else Err(InvalidPromo)
  }

  /** A code that validate_code accepts is applied when the order is placed. */
  lemma ValidatedCodeIsApplied(promos: map<string, PromoCode>, code: string, now: int)
    requires code != "" && ValidateCode(promos, code, now).Ok?
    ensures LookupPromo(promos, Some(code)) == Ok(Some(promos[Upper(code)]))
  {
  }

  /** Placement checks only the active flag: an expired code is still applied. */
  lemma ExpiredCodeStillApplied()
    ensures var promo := NewPromoCode("OLD", Percent, 10.0, 0).(validTo := Some(5));
      var promos := map["OLD" := promo];
      ValidateCode(promos, "old", 10) == Err(Expired) &&
      LookupPromo(promos, Some("old")) == Ok(Some(promo))
  {
    assert Upper("old") == "OLD";
  }

  // ---------------------------------------------------------------------
  // The stock check

  /** Each line on its own asks for no more than its variant's stock. */
  predicate InStock(variants: map<VariantId, Variant>, lines: seq<Line>)
    requires LinesIn(variants, lines)
  {
    forall i :: 0 <= i < |lines| ==> lines[i].quantity <= variants[lines[i].variant].stock
  }

  /**
   * The first loop of perform_create: every line is checked against the
   * stock as it was before the order, and the subtotal is accumulated.
   */
  method CheckStock(variants: map<VariantId, Variant>, lines: seq<Line>) returns (r: Result<real, PlaceError>)
    requires LinesIn(variants, lines)
    ensures r.Ok? <==> InStock(variants, lines)
    ensures r.Ok? ==> r.value == Subtotal(variants, lines)
    ensures r.Err? ==> exists i :: (0 <= i < |lines| && lines[i].quantity > variants[lines[i].variant].stock &&
      (forall j :: 0 <= j < i ==> lines[j].quantity <= variants[lines[j].variant].stock) &&
      r.error == NotEnoughStock(lines[i].variant, variants[lines[i].variant].stock))
  {
    var total := 0.0;
    var i := 0;
    while i < |lines|
      invariant 0 <= i <= |lines|
      invariant forall j :: 0 <= j < i ==> lines[j].quantity <= variants[lines[j].variant].stock
      invariant total == Subtotal(variants, lines[..i])
    {
      var v := variants[lines[i].variant];
      if v.stock < lines[i].quantity {
        return Err(NotEnoughStock(lines[i].variant, v.stock));
      }
      total := total + UnitPrice(v) * lines[i].quantity as real;
      assert lines[..i + 1][..i] == lines[..i];
      i := i + 1;
    }
    assert lines[..i] == lines;
    return Ok(total);
  }

  // ---------------------------------------------------------------------
  // The order number

  const OrderNumberAlphabet := "ABCDEFGHIJKLMNOPQRSTUVWXYZ0123456789"

  /** Ten characters drawn from A-Z and 0-9. */
  predicate RandomPart(chars: string)
  {
    |chars| == 10 && forall i :: 0 <= i < |chars| ==> chars[i] in OrderNumberAlphabet
  }

  /** 'ORD-' followed by the random characters; it fits the 20-character column. */
  function OrderNumber(chars: string): (r: string)
    requires RandomPart(chars)
    ensures |r| == 14 <= MaxOrderNumberLength
    ensures r[..4] == "ORD-" && r[4..] == chars
  {
    "ORD-" + chars
  }

  /** Different random draws give different order numbers. */
  lemma OrderNumberInjective(a: string, b: string)
    requires RandomPart(a) && RandomPart(b) && a != b
    ensures OrderNumber(a) != OrderNumber(b)
  {
    assert OrderNumber(a)[4..] == a;
  }

  predicate NumberTaken(orders: map<OrderId, Order>, number: string)
  {
    exists id :: id in orders && orders[id].orderNumber == number
  }

  // ---------------------------------------------------------------------
  // Selling the lines

  /** How many units of variant v the lines ask for in total. */
  function Demand(lines: seq<Line>, v: VariantId): nat
  {
    if lines == [] then 0
    else Demand(lines[..|lines| - 1], v) + (if lines[|lines| - 1].variant == v then lines[|lines| - 1].quantity else 0)
  }

  /** The stock of every variant covers the total the lines ask of it. */
  predicate Sufficient(variants: map<VariantId, Variant>, lines: seq<Line>)
  {
    forall v :: v in variants ==> Demand(lines, v) <= variants[v].stock
  }

  /** The table after the lines are sold: each stock less its total demand. */
  function AfterSale(variants: map<VariantId, Variant>, lines: seq<Line>): (r: map<VariantId, Variant>)
    requires Sufficient(variants, lines)
    ensures r.Keys == variants.Keys
    ensures forall v :: v in r ==> r[v].stock + Demand(lines, v) == variants[v].stock
    ensures forall v :: v in r ==> r[v].(stock := variants[v].stock) == variants[v]
  {
    map v | v in variants :: variants[v].(stock := variants[v].stock - Demand(lines, v))
  }

  /** The order items created for the lines, each priced at its variant's unit price. */
  function ItemsFor(order: OrderId, variants: map<VariantId, Variant>, lines: seq<Line>): (r: seq<OrderItem>)
    requires LinesIn(variants, lines)
    ensures |r| == |lines|
    ensures forall i :: 0 <= i < |lines| ==>
      r[i] == OrderItem(order, lines[i].variant, lines[i].quantity, UnitPrice(variants[lines[i].variant]))
  {
    seq(|lines|, i requires 0 <= i < |lines| =>
      OrderItem(order, lines[i].variant, lines[i].quantity, UnitPrice(variants[lines[i].variant])))
  }

  /** A prefix of the lines asks for no more than all of them. */
  lemma {:induction false} DemandPrefix(lines: seq<Line>, k: nat, v: VariantId)
    requires k <= |lines|
    ensures Demand(lines[..k], v) <= Demand(lines, v)
    decreases |lines|
  {
    if k < |lines| {
      assert lines[..|lines| - 1][..k] == lines[..k];
      DemandPrefix(lines[..|lines| - 1], k, v);
    } else {
      assert lines[..k] == lines;
    }
  }

  /** Adding one line adds its quantity to its own variant's demand only. */
  lemma DemandStep(lines: seq<Line>, i: nat, v: VariantId)
    requires i < |lines|
    ensures Demand(lines[..i + 1], v) == Demand(lines[..i], v) + (if lines[i].variant == v then lines[i].quantity else 0)
  {
    assert lines[..i + 1][..i] == lines[..i];
  }

  /** Selling one more line from a sufficient stock is one decrement of the table. */
  lemma SaleStep(variants: map<VariantId, Variant>, lines: seq<Line>, i: nat)
    requires LinesIn(variants, lines) && i < |lines| && Sufficient(variants, lines[..i])
    requires AfterSale(variants, lines[..i])[lines[i].variant].stock >= lines[i].quantity
    ensures Sufficient(variants, lines[..i + 1])
    ensures var before := AfterSale(variants, lines[..i]);
      var x := lines[i].variant;
      AfterSale(variants, lines[..i + 1]) == before[x := before[x].(stock := before[x].stock - lines[i].quantity)]
  {
    forall v | v in variants
      ensures Demand(lines[..i + 1], v) <= variants[v].stock
    {
      DemandStep(lines, i, v);
    }
    forall v | v in variants
      ensures Demand(lines[..i + 1], v) == Demand(lines[..i], v) + (if lines[i].variant == v then lines[i].quantity else 0)
    {
      DemandStep(lines, i, v);
    }
  }

  /** A line the current stock cannot cover means the whole order asks for too much. */
  lemma SaleShort(variants: map<VariantId, Variant>, lines: seq<Line>, i: nat)
    requires LinesIn(variants, lines) && i < |lines| && Sufficient(variants, lines[..i])
    requires AfterSale(variants, lines[..i])[lines[i].variant].stock < lines[i].quantity
    ensures !Sufficient(variants, lines)
  {
    var x := lines[i].variant;
    DemandStep(lines, i, x);
    DemandPrefix(lines, i + 1, x);
  }

  /** One more line appends its item, priced at its variant's unit price. */
  lemma ItemsForStep(order: OrderId, variants: map<VariantId, Variant>, lines: seq<Line>, i: nat)
    requires LinesIn(variants, lines) && i < |lines|
    ensures ItemsFor(order, variants, lines[..i + 1]) ==
      ItemsFor(order, variants, lines[..i]) + [OrderItem(order, lines[i].variant, lines[i].quantity, UnitPrice(variants[lines[i].variant]))]
  {
  }

  /**
   * The second loop of perform_create: for each line an order item is
   * created and the variant's stock decremented and saved; a stock that
   * would drop below zero fails the save (the column is a
   * PositiveIntegerField). False means the save failed.
   */
  method SellLines(db: Db, order: OrderId, lines: seq<Line>) returns (ok: bool)
    requires LinesIn(db.variants, lines)
    modifies db
    ensures db.orders == old(db.orders) && db.promos == old(db.promos) && db.payments == old(db.payments)
    ensures db.categories == old(db.categories) && db.nextOrderId == old(db.nextOrderId)
    ensures db.nextCategoryId == old(db.nextCategoryId)
    ensures ok <==> Sufficient(old(db.variants), lines)
    ensures ok ==> db.variants == AfterSale(old(db.variants), lines)
    ensures ok ==> db.items == old(db.items) + ItemsFor(order, old(db.variants), lines)
  {
    var variants, items;
    ok, variants, items := SellEach(db.variants, db.items, order, lines);
    db.variants, db.items := variants, items;
  }

  /** The loop of SellLines on the values of the stock and item tables, which it returns. */
  method SellEach(variants0: map<VariantId, Variant>, items0: seq<OrderItem>, order: OrderId, lines: seq<Line>)
    returns (ok: bool, variants: map<VariantId, Variant>, items: seq<OrderItem>)
    requires LinesIn(variants0, lines)
    ensures ok <==> Sufficient(variants0, lines)
    ensures ok ==> variants == AfterSale(variants0, lines)
    ensures ok ==> items == items0 + ItemsFor(order, variants0, lines)
  {
    variants, items := variants0, items0;
    var i := 0;
    ok := true;
    assert lines[..0] == [];
    while i < |lines|
      invariant 0 <= i <= |lines| && ok
      invariant Sufficient(variants0, lines[..i])
      invariant variants == AfterSale(variants0, lines[..i])
      invariant items == items0 + ItemsFor(order, variants0, lines[..i])
    {
      var line := lines[i];
      var v := variants[line.variant];
      assert UnitPrice(v) == UnitPrice(variants0[line.variant]);
      items := items + [OrderItem(order, line.variant, line.quantity, UnitPrice(v))];
      if v.stock < line.quantity {
        SaleShort(variants0, lines, i);
        return false, variants, items;
      }
      SaleStep(variants0, lines, i);
      ItemsForStep(order, variants0, lines, i);
      variants := variants[line.variant := v.(stock := v.stock - line.quantity)];
      i := i + 1;
    }
    assert lines[..i] == lines;
  }

  /** The items created for the lines add up to the subtotal the order was priced at. */
  lemma {:induction false} PlacedItemsTotal(order: OrderId, variants: map<VariantId, Variant>, lines: seq<Line>)
    requires LinesIn(variants, lines)
    ensures ItemsTotal(ItemsFor(order, variants, lines)) == Subtotal(variants, lines)
    decreases |lines|
  {
    if lines != [] {
      var items := ItemsFor(order, variants, lines);
      var init := lines[..|lines| - 1];
      assert items[..|items| - 1] == ItemsFor(order, variants, init);
      PlacedItemsTotal(order, variants, init);
    }
  }

  /** Lines whose combined demand fits the stock also pass the per-line check. */
  lemma SufficientIsInStock(variants: map<VariantId, Variant>, lines: seq<Line>)
    requires LinesIn(variants, lines) && Sufficient(variants, lines)
    ensures InStock(variants, lines)
  {
    forall i | 0 <= i < |lines|
      ensures lines[i].quantity <= variants[lines[i].variant].stock
    {
      DemandStep(lines, i, lines[i].variant);
      DemandPrefix(lines, i + 1, lines[i].variant);
    }
  }

  /**
   * Two lines for one variant are each checked against the stock alone, so
   * they pass the check together although their sum exceeds the stock.
   */
  lemma RepeatedLinesPassCheck()
    ensures var variants := map[7 := Variant("Tee", "T-1", "M", 3, 10.0, None)];
      var lines := [Line(7, 2), Line(7, 2)];
      InStock(variants, lines) && !Sufficient(variants, lines)
  {
    var lines := [Line(7, 2), Line(7, 2)];
    assert lines[..1][..0] == [];
    assert lines[..1] == [Line(7, 2)];
    assert Demand(lines, 7) == 4;
  }

  // ---------------------------------------------------------------------
  // Placement

  /** The order row saved for an accepted request. */
  function PlacedOrder(user: UserId, number: string, req: OrderRequest, promo: Option<PromoCode>, subtotal: real): (o: Order)
    ensures o.user == user && o.orderNumber == number && o.status == Pending && !o.paymentStatus
    ensures o.totalPrice + o.discountAmount == subtotal
    ensures o.discountAmount == Discount(promo, subtotal)
    ensures o.promoCode == (if promo.Some? then Some(promo.value.code) else None)
    ensures o.shippingAddress == req.shippingAddress && o.billingAddress == req.billingAddress
    ensures o.paymentMethod == req.paymentMethod
  {
    var d := Discount(promo, subtotal);
    NewOrder(user, number, req.shippingAddress, req.billingAddress, subtotal - d, req.paymentMethod)
      .(promoCode := if promo.Some? then Some(promo.value.code) else None, discountAmount := d)
  }

  /** The request reaches the save: the promo is found and every line passes the check. */
  predicate PassesChecks(variants: map<VariantId, Variant>, promos: map<string, PromoCode>, req: OrderRequest)
    requires ValidateItems(variants, req.items).Ok?
  {
    LookupPromo(promos, req.promoCode).Ok? && InStock(variants, ToLines(variants, req.items))
  }

  /** Everything the corrected placement needs to succeed. */
  predicate Accepted(variants: map<VariantId, Variant>, promos: map<string, PromoCode>,
                     orders: map<OrderId, Order>, req: OrderRequest, chars: string)
    requires ValidateItems(variants, req.items).Ok? && RandomPart(chars)
  {
    PassesChecks(variants, promos, req) && !NumberTaken(orders, OrderNumber(chars)) &&
    Sufficient(variants, ToLines(variants, req.items))
  }

  /** The tables after an accepted placement satisfy the sales constraints again. */
  lemma PlacementKeepsSales(variants: map<VariantId, Variant>, promos: map<string, PromoCode>,
                            orders: map<OrderId, Order>, items: seq<OrderItem>,
                            payments: map<string, PaymentModels.Payment>, next: nat,
                            lines: seq<Line>, o: Order)
    requires SalesValid(variants, promos, orders, items, payments, next)
    requires LinesIn(variants, lines) && Sufficient(variants, lines)
    requires !NumberTaken(orders, o.orderNumber)
    ensures SalesValid(AfterSale(variants, lines), promos, orders[next := o],
                       items + ItemsFor(next, variants, lines), payments, next + 1)
  {
    var orders' := orders[next := o];
    forall a, b | a in orders' && b in orders' && a != b
      ensures orders'[a].orderNumber != orders'[b].orderNumber
    {
      if a == next {
        assert b in orders;
      } else if b == next {
        assert a in orders;
      }
    }
  }

  /**
   * perform_create with the order row saved: the promo lookup, the stock
   * check, the price and discount, the order, then one item per line and
   * the stock decrements. Any error rolls every table back.
   */
  method PlaceOrder(db: Db, user: UserId, req: OrderRequest, chars: string) returns (r: Result<OrderId, PlaceError>)
    requires db.Valid()
    requires ValidateItems(db.variants, req.items).Ok?
    requires RandomPart(chars)
    modifies db
    ensures db.Valid()
    ensures db.promos == old(db.promos) && db.payments == old(db.payments) && db.categories == old(db.categories)
    ensures db.nextCategoryId == old(db.nextCategoryId)
    ensures r.Err? ==> (db.variants == old(db.variants) && db.orders == old(db.orders) &&
      db.items == old(db.items) && db.nextOrderId == old(db.nextOrderId))
    ensures r.Ok? <==> Accepted(old(db.variants), old(db.promos), old(db.orders), req, chars)
    ensures LookupPromo(old(db.promos), req.promoCode).Err? ==> r == Err(InvalidPromo)
    ensures r.Err? && r.error.NotEnoughStock? ==> (LookupPromo(old(db.promos), req.promoCode).Ok? &&
      !InStock(old(db.variants), ToLines(old(db.variants), req.items)))
    ensures r == Err(DuplicateOrderNumber) ==> (PassesChecks(old(db.variants), old(db.promos), req) &&
      NumberTaken(old(db.orders), OrderNumber(chars)))
    ensures r == Err(NegativeStock) ==> (PassesChecks(old(db.variants), old(db.promos), req) &&
      !Sufficient(old(db.variants), ToLines(old(db.variants), req.items)))
    ensures r != Err(NotAnOrder)
    ensures r.Ok? ==>
      var lines := ToLines(old(db.variants), req.items);
      var promo := LookupPromo(old(db.promos), req.promoCode).value;
      r.value == old(db.nextOrderId) && db.nextOrderId == r.value + 1 &&
      db.orders == old(db.orders)[r.value := PlacedOrder(user, OrderNumber(chars), req, promo, Subtotal(old(db.variants), lines))] &&
      db.items == old(db.items) + ItemsFor(r.value, old(db.variants), lines) &&
      db.variants == AfterSale(old(db.variants), lines)
    ensures r.Ok? ==> (r.value in db.orders &&
      ItemsTotal(db.items[|old(db.items)|..]) == db.orders[r.value].totalPrice + db.orders[r.value].discountAmount)
  {
    var lines := ToLines(db.variants, req.items);
    var found := LookupPromo(db.promos, req.promoCode);
    if found.Err? {
      return Err(InvalidPromo);
    }
    var checked := CheckStock(db.variants, lines);
    if checked.Err? {
      return Err(checked.error);
    }
    var promo, subtotal := found.value, checked.value;
    var number := OrderNumber(chars);
    if NumberTaken(db.orders, number) {
      return Err(DuplicateOrderNumber);
    }
    var order := PlacedOrder(user, number, req, promo, subtotal);
    r := SaveOrder(db, order, lines);
  }

  /**
   * The writes of perform_create inside its transaction: the order row under
   * the next id, then SellLines; a failed save rolls every table back.
   */
  method SaveOrder(db: Db, order: Order, lines: seq<Line>) returns (r: Result<OrderId, PlaceError>)
    requires db.Valid() && LinesIn(db.variants, lines) && !NumberTaken(db.orders, order.orderNumber)
    modifies db
    ensures db.Valid()
    ensures db.promos == old(db.promos) && db.payments == old(db.payments) && db.categories == old(db.categories)
    ensures db.nextCategoryId == old(db.nextCategoryId)
    ensures r.Ok? <==> Sufficient(old(db.variants), lines)
    ensures r.Err? ==> (r.error == NegativeStock && db.variants == old(db.variants) && db.orders == old(db.orders) &&
      db.items == old(db.items) && db.nextOrderId == old(db.nextOrderId))
    ensures r.Ok? ==>
      r.value == old(db.nextOrderId) && db.nextOrderId == r.value + 1 &&
      db.orders == old(db.orders)[r.value := order] &&
      db.items == old(db.items) + ItemsFor(r.value, old(db.variants), lines) &&
      db.variants == AfterSale(old(db.variants), lines)
    ensures r.Ok? ==> ItemsTotal(db.items[|old(db.items)|..]) == Subtotal(old(db.variants), lines)
  {
    var variants0, orders0, items0, next0 := db.variants, db.orders, db.items, db.nextOrderId;
    var id := db.nextOrderId;
    db.orders, db.nextOrderId := db.orders[id := order], id + 1;
    var ok := SellLines(db, id, lines);
    if !ok {
      db.variants, db.orders, db.items, db.nextOrderId := variants0, orders0, items0, next0;
      return Err(NegativeStock);
    }
    PlacementKeepsSales(variants0, db.promos, orders0, items0, db.payments, id, lines, order);
    PlacedItemsTotal(id, variants0, lines);
    assert db.items[|items0|..] == ItemsFor(id, variants0, lines);
    r := Ok(id);
  }

  /**
   * perform_create as written: the serializer's create returns the
   * validated data, so `order` is a dictionary, no order row is inserted,
   * and creating the first item fails; the transaction rolls back. Nothing
   * changes, and every request that passes the checks fails here.
   */
  method PlaceOrderAsWritten(db: Db, user: UserId, req: OrderRequest, chars: string) returns (r: Result<OrderId, PlaceError>)
    requires db.Valid()
    requires ValidateItems(db.variants, req.items).Ok?
    requires RandomPart(chars)
    ensures r.Err?
    ensures LookupPromo(db.promos, req.promoCode).Err? ==> r == Err(InvalidPromo)
    ensures r.error.NotEnoughStock? ==> (LookupPromo(db.promos, req.promoCode).Ok? &&
      !InStock(db.variants, ToLines(db.variants, req.items)))
    ensures r == Err(NotAnOrder) <==> PassesChecks(db.variants, db.promos, req)
  {
    var lines := ToLines(db.variants, req.items);
    var found := LookupPromo(db.promos, req.promoCode);
    if found.Err? {
      return Err(InvalidPromo);
    }
    var checked := CheckStock(db.variants, lines);
    if checked.Err? {
      return Err(checked.error);
    }
    return Err(NotAnOrder);
  }

  /**
   * A request the corrected placement accepts: one line of an in-stock
   * variant, no promo, a fresh order number. The code as written refuses it.
   */
  lemma AcceptedRequestExists()
    ensures var variants := map[1 := Variant("Tee", "T-1", "M", 5, 10.0, None)];
      var req := OrderRequest([map["variant_id" := 1, "quantity" := 2]], "1 Main St", "1 Main St", "card", None);
      ValidateItems(variants, req.items).Ok? &&
      Accepted(variants, map[], map[], req, "ABCDE12345") &&
      PassesChecks(variants, map[], req)
  {
    var variants := map[1 := Variant("Tee", "T-1", "M", 5, 10.0, None)];
    var req := OrderRequest([map["variant_id" := 1, "quantity" := 2]], "1 Main St", "1 Main St", "card", None);
    assert ItemOk(variants, req.items[0]);
    var lines := ToLines(variants, req.items);
    assert lines == [Line(1, 2)];
    assert lines[..0] == [];
    assert Sufficient(variants, lines);
  }
}
