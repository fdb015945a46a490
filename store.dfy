/**
 * The database the request handlers read and write: one table per model,
 * keyed by primary key, except promo codes (keyed by their unique code) and
 * payments (keyed by their unique reference). Auto-increment counters give
 * the ids of new orders and categories.
 */
module Store {
  import opened Basics
  import opened ProductModels
  import opened OrderModels
  import PaymentModels

  /** No two orders share an order number (the column is unique). */
  predicate UniqueOrderNumbers(orders: map<OrderId, Order>)
  {
    forall a, b :: a in orders && b in orders && a != b ==> orders[a].orderNumber != orders[b].orderNumber
  }

  /** No two categories share a slug (the column is unique across the table). */
  predicate UniqueSlugs(cats: Categories)
  {
    forall a, b :: a in cats && b in cats && a != b ==> cats[a].slug != cats[b].slug
  }

  /** The category table's constraints: a tree, unique slugs, ids below the counter. */
  predicate CatalogueValid(cats: Categories, nextId: nat)
  {
    WellFormed(cats) && Acyclic(cats) && UniqueSlugs(cats) &&
    nextId >= 1 && forall id :: id in cats ==> 0 < id < nextId
  }

  /**
   * The sales tables' constraints: promo codes and payments stored under
   * their unique keys, order ids below the counter, unique order numbers,
   * and every foreign key pointing at an existing row.
   */
  predicate SalesValid(variants: map<VariantId, Variant>, promos: map<string, PromoCode>,
                       orders: map<OrderId, Order>, items: seq<OrderItem>,
                       payments: map<string, PaymentModels.Payment>, nextOrderId: nat)
  {
    (forall c :: c in promos ==> promos[c].code == c) &&
    nextOrderId >= 1 && (forall id :: id in orders ==> 0 < id < nextOrderId) &&
    UniqueOrderNumbers(orders) &&
    (forall r :: r in payments ==> payments[r].reference == r) &&
    (forall r :: r in payments && payments[r].order.Some? ==> payments[r].order.value in orders) &&
    (forall i :: 0 <= i < |items| ==> items[i].order in orders && items[i].variant in variants)
  }

  /** Rewriting a payment under its own reference, still linked to the same order, keeps the sales constraints. */
  lemma ReplacePaymentKeepsSales(variants: map<VariantId, Variant>, promos: map<string, PromoCode>,
                                 orders: map<OrderId, Order>, items: seq<OrderItem>,
                                 payments: map<string, PaymentModels.Payment>, nextOrderId: nat,
                                 reference: string, p: PaymentModels.Payment)
    requires SalesValid(variants, promos, orders, items, payments, nextOrderId)
    requires reference in payments && p.reference == reference && p.order == payments[reference].order
    ensures SalesValid(variants, promos, orders, items, payments[reference := p], nextOrderId)
  {
  }

  /** A new payment under a fresh reference, linked to an existing order or none, keeps the sales constraints. */
  lemma InsertPaymentKeepsSales(variants: map<VariantId, Variant>, promos: map<string, PromoCode>,
                                orders: map<OrderId, Order>, items: seq<OrderItem>,
                                payments: map<string, PaymentModels.Payment>, nextOrderId: nat,
                                p: PaymentModels.Payment)
    requires SalesValid(variants, promos, orders, items, payments, nextOrderId)
    requires p.reference !in payments && (p.order.Some? ==> p.order.value in orders)
    ensures SalesValid(variants, promos, orders, items, payments[p.reference := p], nextOrderId)
  {
  }

  /** Rewriting an order without touching its number keeps the sales constraints. */
  lemma ReplaceOrderKeepsSales(variants: map<VariantId, Variant>, promos: map<string, PromoCode>,
                               orders: map<OrderId, Order>, items: seq<OrderItem>,
                               payments: map<string, PaymentModels.Payment>, nextOrderId: nat,
                               id: OrderId, o: Order)
    requires SalesValid(variants, promos, orders, items, payments, nextOrderId)
    requires id in orders && o.orderNumber == orders[id].orderNumber
    ensures SalesValid(variants, promos, orders[id := o], items, payments, nextOrderId)
  {
    var orders' := orders[id := o];
    forall a, b | a in orders' && b in orders' && a != b
      ensures orders'[a].orderNumber != orders'[b].orderNumber
    {
      assert orders'[a].orderNumber == orders[a].orderNumber;
      assert orders'[b].orderNumber == orders[b].orderNumber;
    }
  }

  class Db {
    var variants: map<VariantId, Variant>
    var promos: map<string, PromoCode>
    var orders: map<OrderId, Order>
    var items: seq<OrderItem>
    var payments: map<string, PaymentModels.Payment>
    var categories: Categories
    var nextOrderId: nat
    var nextCategoryId: nat

    /** The constraints the database enforces, and the ones every handler keeps. */
    ghost predicate Valid()
      reads this
    {
      SalesValid(variants, promos, orders, items, payments, nextOrderId) &&
      CatalogueValid(categories, nextCategoryId)
    }

    /** Writing the category table and its id counter; the sales tables are untouched. */
    method SetCatalogue(cats: Categories, nextId: nat)
      requires Valid() && CatalogueValid(cats, nextId)
      modifies this
      ensures Valid() && categories == cats && nextCategoryId == nextId
      ensures variants == old(variants) && promos == old(promos) && orders == old(orders)
      ensures items == old(items) && payments == old(payments) && nextOrderId == old(nextOrderId)
    {
      categories, nextCategoryId := cats, nextId;
    }

    /** Writing the payment table; every other table is untouched. */
    method SetPayments(ps: map<string, PaymentModels.Payment>)
      requires Valid() && SalesValid(variants, promos, orders, items, ps, nextOrderId)
      modifies this
      ensures Valid() && payments == ps
      ensures variants == old(variants) && promos == old(promos) && orders == old(orders) && items == old(items)
      ensures categories == old(categories) && nextOrderId == old(nextOrderId) && nextCategoryId == old(nextCategoryId)
    {
      payments := ps;
    }

    constructor ()
      ensures Valid()
      ensures variants == map[] && promos == map[] && orders == map[] && items == []
      ensures payments == map[] && categories == map[]
      ensures nextOrderId == 1 && nextCategoryId == 1
    {
      variants, promos, orders, items := map[], map[], map[], [];
      payments, categories := map[], map[];
      nextOrderId, nextCategoryId := 1, 1;
    }
  }
}
