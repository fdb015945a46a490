/**
 * The order app's input checks and display fallbacks: the items list of an
 * order request, the promo-code validator, the mobile banner URL and the
 * product name shown for an order line.
 */
module OrderSerializers {
  import opened Basics
  import opened Text
  import opened ProductModels
  import opened OrderModels

  /** One entry of the `items` list: a dictionary whose values are integers. */
  type ItemData = map<string, int>

  datatype ItemsError =
    | EmptyItems
    | MissingKeys
    | NoSuchVariant(variantId: int)
    | BadQuantity

  /** The variant table has a row with this id (ids are positive, so no negative id exists). */
  predicate VariantExists(variants: map<VariantId, Variant>, id: int)
  {
    id >= 0 && id as nat in variants
  }

  /** Both keys present, the variant exists and the quantity is positive. */
  predicate ItemOk(variants: map<VariantId, Variant>, item: ItemData)
  {
    "variant_id" in item && "quantity" in item &&
    VariantExists(variants, item["variant_id"]) && item["quantity"] > 0
  }

  /** The complaint about one item, in the order the checks run, or none. */
  function ItemError(variants: map<VariantId, Variant>, item: ItemData): (r: Option<ItemsError>)
    ensures r.None? <==> ItemOk(variants, item)
    ensures r == Some(MissingKeys) <==> "variant_id" !in item || "quantity" !in item
    ensures r.Some? && r.value.NoSuchVariant? <==> ("variant_id" in item && "quantity" in item &&
      !VariantExists(variants, item["variant_id"]))
    ensures r.Some? && r.value.NoSuchVariant? ==> r.value.variantId == item["variant_id"]
    ensures r == Some(BadQuantity) <==> ("variant_id" in item && "quantity" in item &&
      VariantExists(variants, item["variant_id"]) && item["quantity"] <= 0)
  {
    if "variant_id" !in item || "quantity" !in item then Some(MissingKeys)
    else if !VariantExists(variants, item["variant_id"]) then Some(NoSuchVariant(item["variant_id"]))
    else if item["quantity"] <= 0 then Some(BadQuantity)
    else None
  }

  /** The position of the first item that fails, scanning from the front. */
  function FirstBadItem(variants: map<VariantId, Variant>, items: seq<ItemData>): (r: Option<nat>)
    ensures r.None? <==> forall i :: 0 <= i < |items| ==> ItemOk(variants, items[i])
    ensures r.Some? ==> (r.value < |items| && !ItemOk(variants, items[r.value]) &&
      forall j :: 0 <= j < r.value ==> ItemOk(variants, items[j]))
  {
    if items == [] then None
    else if ItemError(variants, items[0]).Some? then Some(0)
    else
      var rest := FirstBadItem(variants, items[1..]);
      assert forall j :: 1 <= j < |items| ==> items[j] == items[1..][j - 1];
      if rest.Some? then Some(rest.value + 1) else None
  }

  /**
   * validate_items: an empty list is refused; otherwise the first failing
   * item decides the error; a list that passes comes back unchanged.
   */
  function ValidateItems(variants: map<VariantId, Variant>, items: seq<ItemData>): (r: Result<seq<ItemData>, ItemsError>)
    ensures r.Ok? <==> |items| > 0 && forall i :: 0 <= i < |items| ==> ItemOk(variants, items[i])
    ensures r.Ok? ==> r.value == items
    ensures items == [] ==> r == Err(EmptyItems)
    ensures items != [] && r.Err? ==> exists i :: (0 <= i < |items| && ItemError(variants, items[i]) == Some(r.error) &&
      forall j :: 0 <= j < i ==> ItemOk(variants, items[j]))
  {
    if items == [] then Err(EmptyItems)
    else
      var bad := FirstBadItem(variants, items);
      if bad.Some? then Err(ItemError(variants, items[bad.value]).value) else Ok(items)
  }

  /** A validated order line: an existing variant and a positive quantity. */
  datatype Line = Line(variant: VariantId, quantity: nat)

  predicate LineValid(variants: map<VariantId, Variant>, line: Line)
  {
    line.variant in variants && line.quantity > 0
  }

  /** The lines an accepted items list stands for, in request order. */
  function ToLines(variants: map<VariantId, Variant>, items: seq<ItemData>): (lines: seq<Line>)
    requires forall i :: 0 <= i < |items| ==> ItemOk(variants, items[i])
    ensures |lines| == |items|
    ensures forall i :: 0 <= i < |items| ==> (ItemOk(variants, items[i]) &&
      lines[i].variant as int == items[i]["variant_id"] && lines[i].quantity as int == items[i]["quantity"])
  {
    if items == [] then []
    else
      assert ItemOk(variants, items[0]);
      [Line(items[0]["variant_id"] as nat, items[0]["quantity"] as nat)] + ToLines(variants, items[1..])
  }

  /** What validate_items lets through becomes a non-empty list of valid lines. */
  lemma AcceptedItemsAreLines(variants: map<VariantId, Variant>, items: seq<ItemData>)
    requires ValidateItems(variants, items).Ok?
    ensures var lines := ToLines(variants, items);
      |lines| > 0 && forall i :: 0 <= i < |lines| ==> LineValid(variants, lines[i])
  {
  }

  /** The fields of an order request once validated. `create` hands them back unchanged. */
  datatype OrderRequest = OrderRequest(
    items: seq<ItemData>,
    shippingAddress: string,
    billingAddress: string,
    paymentMethod: string,
    promoCode: Option<string>)

  datatype CodeError = InvalidCode | Inactive | NotYetValid | Expired

  /**
   * validate_code: the promo stored under the upper-cased code must exist,
   * be active, have started and not have ended; the value the user typed is
   * returned as typed. The source reads the clock once for each date check;
   * both reads are taken to be the same instant `now`.
   */
  function ValidateCode(promos: map<string, PromoCode>, value: string, now: int): (r: Result<string, CodeError>)
    ensures r.Ok? ==> r.value == value
    ensures r == Err(InvalidCode) <==> Upper(value) !in promos
    ensures r == Err(Inactive) <==> Upper(value) in promos && !promos[Upper(value)].isActive
    ensures r == Err(NotYetValid) <==> (Upper(value) in promos && promos[Upper(value)].isActive &&
      promos[Upper(value)].validFrom > now)
    ensures r == Err(Expired) <==> (Upper(value) in promos && promos[Upper(value)].isActive &&
      promos[Upper(value)].validFrom <= now &&
      promos[Upper(value)].validTo.Some? && promos[Upper(value)].validTo.value < now)
    ensures r.Ok? <==> Upper(value) in promos && PromoLive(promos[Upper(value)], now)
  {
    var key := Upper(value);
    if key !in promos then Err(InvalidCode)
    else
      var promo := promos[key];
      if !promo.isActive then Err(Inactive)
      else if promo.validFrom > now then Err(NotYetValid)
      else if promo.validTo.Some? && promo.validTo.value < now then Err(Expired)
      else Ok(value)
  }

  /** Active, started, and not past its end (a missing end never expires). */
  predicate PromoLive(p: PromoCode, now: int)
  {
    p.isActive && p.validFrom <= now && (p.validTo.None? || now <= p.validTo.value)
  }

  /** get_media_url: the absolute URL of the desktop file, when there is one and a request. */
  function MediaUrl(desktop: Option<string>, hasRequest: bool, absolute: string -> string): (r: Option<string>)
    ensures r.Some? <==> desktop.Some? && hasRequest
    ensures r.Some? ==> r.value == absolute(desktop.value)
  {
    if desktop.Some? && hasRequest then Some(absolute(desktop.value)) else None
  }

  /**
   * get_media_url_mobile: the mobile file, or the desktop file when no
   * mobile file is set, as an absolute URL when there is a request.
   */
  function MediaUrlMobile(mobile: Option<string>, desktop: Option<string>, hasRequest: bool,
                          absolute: string -> string): (r: Option<string>)
    ensures mobile.Some? && hasRequest ==> r == Some(absolute(mobile.value))
    ensures !hasRequest ==> r.None?
  {
    var file := if mobile.Some? then mobile else desktop;
    if file.Some? && hasRequest then Some(absolute(file.value)) else None
  }

  /** Without a mobile file the mobile URL is the desktop URL. */
  lemma MobileFallsBackToDesktop(desktop: Option<string>, hasRequest: bool, absolute: string -> string)
    ensures MediaUrlMobile(None, desktop, hasRequest, absolute) == MediaUrl(desktop, hasRequest, absolute)
  {
  }

  const NameUnavailable := "Product Name Unavailable"

  /** get_product_name: the product's name when the line's variant is present, else a fixed text. */
  function ProductName(variants: map<VariantId, Variant>, item: OrderItem): (r: string)
    ensures item.variant !in variants ==> r == NameUnavailable
    ensures item.variant in variants ==> r == variants[item.variant].productName
  {
    if item.variant in variants then variants[item.variant].productName else NameUnavailable
  }

}
