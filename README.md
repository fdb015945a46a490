# A verified model of an online shop backend

This project models the business logic of a Django shop backend with four apps:
products, orders, payments and a category tree. It covers four groups:

- **Order placement.** An order request is validated item by item. The promo code is looked up. Each line is checked against stock and priced at `discount_price or price`, and a percentage or fixed discount is applied. Then the order, its items and the stock decrements are written in one transaction.
- **Payment reconciliation.**
  - Paynow initiation: the payment reference, the signed payload and the handling of the provider's `key=value&...` reply.
  - The Paynow result webhook: body parsing, the hash over the body's values, and the payment and order status update.
  - The PayPal capture guard.
- **The category tree.**
  - The parent-chain walks behind the full path, the indented name and cycle detection.
  - Sibling-unique slug generation and the automatic slugs on save.
  - The next display order for a new child.
  - The flat and tree listings.
- **Small decision rules.** The admin bulk status actions, the line total, and the staff-or-read-only permission.

The database is a `Store.Db` object whose fields are the tables, held as maps and a sequence of order items. Its invariant `Db.Valid` keeps three things:

- order numbers unique;
- every payment's order link resolving;
- the category parent map acyclic, with its slugs unique.

Request handlers are methods that modify the `Db` object. On any error they restore every table, which stands for the transaction rolling back.

Money is exact (`real`), like the `Decimal` fields of the source. Hashing, slug conversion, URL unquoting, random characters, UUID digits, the text form of a decimal and every reply from a payment provider are parameters of the operations that use them.

Modules follow the source's files:

| Module | Source file |
|---|---|
| `ProductModels` | products/models.py |
| `ProductSerializers` | products/serializers.py |
| `ProductForms` | products/forms.py |
| `ProductViews` | products/views.py |
| `OrderModels` | orders/models.py |
| `OrderSerializers` | orders/serializers.py |
| `OrderViews` | orders/views.py |
| `OrderAdmin` | orders/admin.py |
| `OrderPermissions` | orders/permissions.py |
| `PaymentModels` | payments/models.py |
| `PaymentViews` | payments/views.py |

Three modules are shared support code:

- `Basics`: Option and Result.
- `Text`: ASCII case mapping, split and join, and decimal digits.
- `Store`: the database and its invariant.

## Model

| member | source | states |
|---|---|---|
| Text.Upper | payments/views.py:29 | upper-casing keeps the length and maps each ASCII lower-case letter to its upper case, leaving every other character |
| Text.Lower | payments/views.py:160 | lower-casing keeps the length and maps each ASCII upper-case letter to its lower case, leaving every other character |
| Text.UpperIsUpper | payments/views.py:72 | an upper-cased string has no lower-case letter, upper-casing is idempotent, and it leaves a string without lower-case letters unchanged |
| Text.Split | payments/views.py:142-143 | `str.split` on one character gives at least one part |
| Text.SplitJoin | payments/views.py:159 | joining the parts of a split with the separator gives the string back, and no part contains the separator |
| Text.SplitOfJoin | payments/views.py:159 | splitting a join of separator-free words gives the words back |
| Text.SplitOnce | payments/views.py:160 | `split('=', 1)` fails exactly when the separator is absent, and otherwise gives the text before the first separator and the rest |
| Text.SplitOnceAgrees | payments/views.py:143 | the first two parts of a full split agree with the split at the first separator |
| Text.NatToString | products/serializers.py:111 | the decimal text of a number is non-empty and all digits |
| Text.ParseNatToString | products/serializers.py:111 | reading the decimal text of a number gives the number back |
| Text.NatToStringInjective | products/serializers.py:111 | different numbers have different decimal texts |
| Text.StrLeqTotal | products/views.py:40 | ordering names is total |
| Text.StrLeqAntisymmetric | products/views.py:40 | two names ordered both ways are equal |
| Text.StrLeqTransitive | products/views.py:40 | ordering names is transitive |
| Basics.MaxExists | products/views.py:112-113 | a finite non-empty set of numbers has a largest element |
| ProductModels.Chain | products/models.py:90-94 | the walk up the parent links visits only stored categories and takes at most its fuel in steps |
| ProductModels.RootedMono | products/models.py:90-94 | a walk that reaches the root with some fuel reaches it, along the same chain, with any more fuel |
| ProductModels.AncestorsIsChain | products/serializers.py:72-76 | the ancestor chain of a rooted category is its parent walk |
| ProductModels.AncestorsStep | products/forms.py:23-25 | the ancestors of a category, itself included, are the category followed by its parent's ancestors |
| ProductModels.AncestorsOfRoot | products/forms.py:17 | no parent has no ancestors |
| ProductModels.RootedAlong | products/models.py:90-94 | every category on a rooted chain is itself rooted, with less fuel |
| ProductModels.NoReturn | products/serializers.py:72-76 | in an acyclic tree a category never occurs on its own parent's chain |
| ProductModels.NotOwnAncestor | products/forms.py:23-28 | no category is among its parent's ancestors |
| ProductModels.ChainStopsAtRoot | products/models.py:90-94 | a parent walk stops at a root after exactly as many steps as it visited categories |
| ProductModels.ChainDistinct | products/models.py:90-94 | a parent walk that reaches a root visits no category twice |
| ProductModels.RootedWithinSize | products/models.py:90-94 | a walk that reaches a root does so within as many steps as there are categories |
| ProductModels.AllRootedIsAcyclic | products/models.py:20-27 | if every category's walk reaches a root, the tree is acyclic |
| ProductModels.AncestorsBounded | products/serializers.py:72-76 | the ancestors are the walk with the number of categories as fuel |
| ProductModels.ReparentKeepsAcyclic | products/forms.py:10-30 | moving a category under a parent whose ancestors exclude it keeps the tree acyclic |
| ProductModels.SameParentsKeepTree | products/models.py:80-86 | changing anything but parent links keeps the tree acyclic |
| ProductModels.InsertKeepsAcyclic | products/views.py:105-115 | adding a new category under an existing parent, or at the root, keeps the tree acyclic |
| ProductModels.NamesRootFirst | products/models.py:90-94 | the names of a chain are listed root first, one per category |
| ProductModels.FullPath | products/models.py:88-95 | the loop's path equals the full-path specification: the names from the root down, joined with " > " |
| ProductModels.FullPathStep | products/models.py:88-95 | a root's full path is its name, and a child's is its parent's full path, " > " and its name |
| ProductModels.Level | products/models.py:100 | get_level is below the number of categories |
| ProductModels.LevelStep | products/models.py:97-100 | a root is at level 0 and a child one level below its parent |
| ProductModels.LevelName | products/models.py:97-100 | the indented name is `level` copies of the indent followed by the name |
| ProductModels.LevelNamePrefix | products/models.py:97-100 | each of the repeated indents sits at its own two-character position |
| ProductModels.LevelNameOfChild | products/models.py:97-100 | a child's name is shown with one indent more than the same name at its parent's level |
| ProductModels.SavedSlug | products/models.py:80-86 | a non-empty slug is kept; an empty one becomes the slug of the name, prefixed by the parent's slug and "-" when there is a parent |
| ProductModels.SavedSlugIdempotent | products/models.py:80-86 | saving twice gives the slug the first save gave |
| ProductModels.ImageSlug | products/models.py:186-193 | a non-empty image slug is kept; otherwise the slug of "product-sku-size" with a variant, and of the product name without one |
| ProductModels.ImageSlugIdempotent | products/models.py:186-193 | saving an image twice gives the slug the first save gave |
| ProductSerializers.CandidateInjective | products/serializers.py:110-112 | the candidates `base-1`, `base-2`, ... are pairwise different |
| ProductSerializers.FirstFreeUnique | products/serializers.py:102-113 | there is only one first free candidate |
| ProductSerializers.GenerateUniqueSlug | products/serializers.py:100-114 | the slug is not used by any sibling (or root when there is no parent); it is the base slug when that is free, and otherwise the first free numbered candidate |
| ProductSerializers.CreatesCircularReference | products/serializers.py:70-77 | the loop reports a cycle exactly when the instance is among the new parent's ancestors, itself included |
| ProductSerializers.ValidateParent | products/serializers.py:61-68 | on create or with no parent the value is accepted; otherwise self-parenting and a parent whose chain reaches the instance are refused, and anything else is accepted |
| ProductSerializers.IsValid | products/serializers.py:13-68 | the data pass exactly when every field check holds (a required name, no blank or over-long name or slug, slug characters only, a slug no other row holds, an existing parent outside the instance's subtree on update, a display order in range), unchanged; otherwise every failing check is reported |
| ProductSerializers.RefusalsEmpty | products/models.py:10-44 | the field-by-field error list is empty exactly when the data pass every check |
| ProductSerializers.SlugRefusalsEmpty | products/models.py:15-19 | the slug field reports no error exactly when it is absent or a slug of letters, digits, `-` and `_`, at most 150 long, that no other row has |
| ProductSerializers.ParentRefusalsEmpty | products/serializers.py:61-77 | the parent field reports no error exactly when it is absent, null, or an existing category outside the instance's subtree on update |
| ProductSerializers.SlugOnCreate | products/serializers.py:79-86 | a given non-empty slug is kept; otherwise a sibling-unique slug is generated from the name under the given parent |
| ProductSerializers.SlugOnUpdate | products/serializers.py:88-95 | a name without a slug regenerates the slug under the new parent, or the current one; any other data is left as it came |
| ProductForms.CleanParent | products/forms.py:10-30 | with an unsaved instance or no parent the parent is returned; the instance itself and a parent among whose ancestors it is are refused; otherwise the parent is returned |
| ProductForms.CleanParentKeepsTree | products/forms.py:10-30 | a parent the form accepts keeps the tree acyclic |
| ProductViews.KeyLeqTotal | products/views.py:40 | the (display order, name) ordering is total |
| ProductViews.KeyLeqTransitive | products/views.py:40 | the ordering is transitive |
| ProductViews.KeyLeqReflexive | products/views.py:40 | the ordering is reflexive |
| ProductViews.KeyLeqAntisymmetric | products/views.py:40 | two categories ordered both ways are the same category |
| ProductViews.LeastExists | products/views.py:40 | every non-empty set of categories has a first one in the ordering |
| ProductViews.LeastUnique | products/views.py:40 | that first category is unique |
| ProductViews.Least | products/views.py:40 | the chosen category is the first one |
| ProductViews.Ordered | products/views.py:40 | the ordered listing has exactly the set's members |
| ProductViews.OrderedSpec | products/views.py:40 | the ordered listing has no repeats, holds every member and is sorted by (display order, name) |
| ProductViews.Queryset | products/views.py:27-40 | the listing holds exactly the roots, or the children of the parent with the given slug, without repeats and sorted |
| ProductViews.DepthOfChild | products/views.py:91-103 | a child is one deeper than its parent, within the number of categories |
| ProductViews.SubtreeChildren | products/views.py:91-103 | a serialised node has one child entry per child category, each the serialised child |
| ProductViews.RecursiveSerialize | products/views.py:91-103 | each node is serialised with its subtree: children are attached exactly to nodes that have them, recursively |
| ProductViews.List | products/views.py:48-89 | the tree format is used exactly when the `tree` key is present; the flat one counts and lists the queryset, and the tree one serialises it |
| ProductViews.LastChildOrder | products/views.py:109-113 | there is no last order exactly when the parent has no children; otherwise it is the largest display order among them |
| ProductViews.DisplayOrderOnCreate | products/views.py:105-115 | with a parent the display order is one more than the children's largest, or 1; without one the data is unchanged |
| ProductViews.SlugOnPerformUpdate | products/views.py:140-146 | a given name regenerates a sibling-unique slug under the new parent, or the current one; without a name the data is unchanged |
| ProductViews.InsertKeepsCatalogue | products/views.py:105-115 | inserting a row under a fresh id with an unused slug and an existing parent keeps the catalogue valid |
| ProductViews.ReplaceKeepsCatalogue | products/views.py:140-146 | replacing a row with parents that keep the tree acyclic and an unused slug keeps the catalogue valid |
| ProductViews.ReplaceKeepsTree | products/views.py:140-146 | a new parent that is not the row's descendant keeps every category's walk to a root finite and every parent present |
| ProductViews.CreatedRowUnique | products/views.py:105-115 | the request and the table determine the created row, slug included |
| ProductViews.NewCategoryRow | products/views.py:105-115 | the new row is the created row: the given name and parent, the display order chosen on create, a given non-empty slug, else the first free sibling candidate, completed by the model's save |
| ProductViews.InsertCategory | products/views.py:115 | the insert fails with a duplicate slug exactly when a row already has the slug, changing nothing; otherwise the row is added under the next id and the counter advances |
| ProductViews.CreateCategory | products/views.py:105-115 | data that fail a field check of is_valid are refused with every error listed, changing nothing; valid data build the created row, which goes in under the next id exactly when no row has its slug, and otherwise nothing changes; a slug the request gives never collides; every other table is unchanged |
| ProductViews.UpdatedRowUnique | products/views.py:140-146 | the request and the table determine the updated row, slug included |
| ProductViews.UpdatedCategoryRow | products/views.py:140-146 | the row built is the updated row: each given field replaces the current one, and the slug is perform_update's regenerated one (or the given or current one) as the model's save stores it |
| ProductViews.UpdateCategory | products/views.py:140-146 | PUT and PATCH: data that fail a field check of is_valid (a name on PUT, blank or over-long fields, a slug another row holds, a missing parent, a parent in the category's own subtree, named as self parent when it is the category) are refused with every error listed, changing nothing; valid data build the updated row, which replaces the category exactly when no other row has its slug; a slug given without a name never collides; every other table is unchanged |
| ProductViews.SaveCategory | products/views.py:140-146 | with the parent accepted, the updated row replaces the category exactly when no other row has its slug, and otherwise nothing changes |
| OrderModels.NewPromoCode | orders/models.py:8-23 | a new promo code is active, has no end date, a usage limit of 100 and no minimum purchase |
| OrderModels.PromoCodeStr | orders/models.py:25-28 | the text starts with the code and " (", and ends in "% off)" exactly for a percentage, with the value's text between; other types show "$", the value's text, then " off)" |
| OrderModels.PromoCodeStrDistinguishes | orders/models.py:25-28 | two promo codes of equal code length with the same text have the same code, the same kind of discount and the same value text |
| OrderModels.StatusCode | orders/models.py:33-40 | each order status is stored as a one- or two-letter code |
| OrderModels.StatusFromCode | orders/models.py:33-40 | a code reads back only as a status stored under it |
| OrderModels.StatusCodeRoundTrip | orders/models.py:33-40 | every status reads back from its stored code |
| OrderModels.NewOrder | orders/models.py:32-57 | a new order is pending, unpaid, without discount, tracking number or promo, and holds the given fields |
| OrderModels.OrderItemStr | orders/models.py:65-66 | the item's text starts with its quantity's digits and ends with the order number |
| OrderModels.OrderItemStrQuantity | orders/models.py:65-66 | the item's text begins with its quantity, which reads back from the text before the first space; the rest is "x ", the product name, " in order " and the order number |
| OrderPermissions.HasPermission | orders/permissions.py:8-11 | safe methods are always allowed; any other method only for a present staff user |
| OrderPermissions.PermissionDependsOnStaffOnly | orders/permissions.py:8-11 | the answer depends only on the method and the staff flag |
| OrderPermissions.StaffMayDoMore | orders/permissions.py:8-11 | staff may do all a visitor may; an anonymous POST is refused and a staff POST allowed |
| OrderSerializers.ItemError | orders/serializers.py:76-83 | an item fails exactly when it lacks a key, names no variant, or has a quantity of 0 or less, each failure reported as such |
| OrderSerializers.FirstBadItem | orders/serializers.py:76-83 | no failing item exactly when every item passes; otherwise the first failing one |
| OrderSerializers.ValidateItems | orders/serializers.py:72-85 | items are accepted exactly when the list is non-empty and every item passes, and are then returned unchanged; the error is the first failing item's |
| OrderSerializers.ToLines | orders/serializers.py:87-90 | accepted items become one line each, with their variant and a positive quantity |
| OrderSerializers.AcceptedItemsAreLines | orders/serializers.py:60-90 | every accepted item list gives lines that name existing variants |
| OrderSerializers.ValidateCode | orders/serializers.py:131-147 | a code is accepted exactly when a promo exists for its upper-cased form, is active, has started and has not ended; each refusal names the first failing check, and the original text is returned |
| OrderSerializers.MediaUrl | orders/serializers.py:110-114 | there is a URL exactly when there is a file and a request, and then it is the file's absolute URL |
| OrderSerializers.MediaUrlMobile | orders/serializers.py:116-121 | the mobile file's absolute URL when there is one; none without a request |
| OrderSerializers.MobileFallsBackToDesktop | orders/serializers.py:116-121 | without a mobile file the mobile URL is the desktop URL |
| OrderSerializers.ProductName | orders/serializers.py:28-31 | a present variant gives its product's name, a missing one "Product Name Unavailable" |
| OrderViews.Visible | orders/views.py:70-81 | staff see every order; anyone else exactly their own |
| OrderViews.UnitPrice | orders/views.py:107 | a set, non-zero discount price is charged, otherwise the list price |
| OrderViews.Subtotal | orders/views.py:107-108 | the sum of the line prices is non-negative when every unit price is |
| OrderViews.Discount | orders/views.py:110-116 | no promo gives no discount; a percentage gives that share of the subtotal, a fixed value that value, and any other type none |
| OrderViews.PercentDiscountBounded | orders/views.py:110-116 | a percentage from 0 to 100 of a non-negative subtotal is a discount between 0 and the subtotal |
| OrderViews.FixedDiscountNotClamped | orders/views.py:118 | a fixed discount above the subtotal makes the total negative |
| OrderViews.OtherTypeGivesNothing | orders/views.py:110-116 | an unknown discount type gives no discount |
| OrderViews.LookupPromo | orders/views.py:89-97 | no code or an empty code means no promo; otherwise the active promo under the upper-cased code, or an error |
| OrderViews.ValidatedCodeIsApplied | orders/views.py:89-97 | a code the validator accepts is found when the order is placed |
| OrderViews.ExpiredCodeStillApplied | orders/views.py:89-97 | placement checks only the active flag, so an expired code is still applied |
| OrderViews.CheckStock | orders/views.py:102-108 | the loop accepts exactly when every line on its own fits its variant's stock, returns the subtotal, and otherwise names a line that does not fit |
| OrderViews.OrderNumber | orders/views.py:122 | "ORD-" followed by the ten drawn characters, 14 long, within the 20-character column |
| OrderViews.OrderNumberInjective | orders/views.py:122 | different draws give different order numbers |
| OrderViews.AfterSale | orders/views.py:129-138 | selling keeps every variant and its other fields, and lowers each stock by the lines' total demand of it |
| OrderViews.ItemsFor | orders/views.py:129-134 | one item per line, with its variant, its quantity and its unit price |
| OrderViews.DemandPrefix | orders/views.py:129-138 | part of the lines never asks for more of a variant than all of them |
| OrderViews.DemandStep | orders/views.py:129-138 | one more line adds its quantity to its own variant's demand only |
| OrderViews.SaleStep | orders/views.py:135-138 | selling one more line is one stock decrement of its variant |
| OrderViews.SaleShort | orders/views.py:135-138 | a line the remaining stock cannot cover means the lines together ask too much |
| OrderViews.SellLines | orders/views.py:129-138 | the loop succeeds exactly when every variant's stock covers the lines' total demand; it then leaves each stock less that demand and appends one item per line |
| OrderViews.SellEach | orders/views.py:129-138 | on the values of the two tables: success exactly when the stock covers the demand, and then the stock after the sale and one item per line at its unit price |
| OrderViews.PlacedItemsTotal | orders/views.py:107-108 | the created items add up to the subtotal the order was priced at |
| OrderViews.SufficientIsInStock | orders/views.py:102-105 | lines whose total demand fits pass the per-line check |
| OrderViews.RepeatedLinesPassCheck | orders/views.py:102-105 | two lines of one variant that fit singly but not together pass the check and then fail on the decrement |
| OrderViews.PlacedOrder | orders/views.py:107-126 | the saved order is pending and unpaid, with the discount of its promo and total plus discount equal to the subtotal |
| OrderViews.PlacementKeepsSales | orders/views.py:120-138 | an accepted placement keeps order numbers unique and stocks non-negative |
| OrderViews.PlaceOrder | orders/views.py:83-138 | as intended: an invalid promo, a line above stock, a used order number or a stock that goes negative is refused and every table is unchanged; otherwise one order, its items and the decrements are written, and the items add up to total plus discount |
| OrderViews.SaveOrder | orders/views.py:120-138 | the order is stored under the next id with its items and stock decrements exactly when the stock covers the demand, the items add up to the subtotal, and otherwise every table is rolled back |
| OrderViews.PlaceOrderAsWritten | orders/views.py:83-126 | as written: the invalid promo and the stock check refuse as before, and every request that passes them fails on the unsaved order |
| OrderViews.AcceptedRequestExists | orders/views.py:83-138 | some request passes every check, so the code as written refuses a request the intended code accepts |
| OrderAdmin.WithStatus | orders/admin.py:50-55 | a bulk status update keeps the set of orders |
| OrderAdmin.WithStatusEffect | orders/admin.py:50-55 | selected orders get the new status whatever they had; unselected orders, and every other field, are unchanged |
| OrderAdmin.WithStatusIdempotent | orders/admin.py:50-55 | running an action twice is running it once |
| OrderAdmin.WithStatusKeepsNumbers | orders/admin.py:50-55 | order numbers stay unique |
| OrderAdmin.SetStatus | orders/admin.py:50-55 | the order table becomes the bulk update and nothing else changes |
| OrderAdmin.MarkAsShipped | orders/admin.py:50-51 | the selected orders become shipped and nothing else changes |
| OrderAdmin.MarkAsDelivered | orders/admin.py:54-55 | the selected orders become delivered and nothing else changes |
| OrderAdmin.ItemTotal | orders/admin.py:10-11 | a line total is never negative for a non-negative price, is zero for no items and the unit price for one |
| OrderAdmin.ItemsTotal | orders/admin.py:10-11 | the line totals of items with non-negative prices add up to a non-negative amount |
| OrderAdmin.ItemsTotalAppend | orders/admin.py:10-11 | the line totals of two runs of items add up to the sum of their totals |
| OrderAdmin.AdminSave | orders/admin.py:26-47 | saving the form keeps the read-only order number, total, promo and discount, writes user, status, payment method and status, both addresses and the tracking number from the form, and changes nothing else |
| OrderAdmin.AdminSaveUnchanged | orders/admin.py:26-47 | saving a form showing the order's own values changes nothing |
| PaymentModels.StatusCode | payments/models.py:8-12 | each payment status is stored as a word of at least four letters without spaces |
| PaymentModels.StatusFromCode | payments/models.py:8-12 | a code reads back only as a status stored under it |
| PaymentModels.StatusCodeRoundTrip | payments/models.py:8-12 | every status reads back from its code |
| PaymentModels.NewPayment | payments/models.py:7-31 | a new payment is pending, described "Item Purchase", without a provider reference, and holds the given order, amount and reference |
| PaymentModels.OrderIdText | payments/models.py:35-36 | the order id's text has no space |
| PaymentModels.PaymentStr | payments/models.py:35-36 | the text starts with "Payment for Order " and ends with the status code |
| PaymentModels.PaymentStrWords | payments/models.py:35-36 | the text splits into "Payment for Order {id} - {status}", from which the status and order id read back |
| PaymentModels.JoinWords | payments/models.py:35-36 | those six words joined with spaces are the formatted text |
| PaymentViews.GenerateHash | payments/views.py:24-29 | the signature is the digest of the values followed by the key, upper-cased, with no lower-case letter |
| PaymentViews.GenerateHashStable | payments/views.py:24-29 | upper-casing a signature leaves it unchanged |
| PaymentViews.ToDict | payments/views.py:111 | a key is in the dictionary exactly when some pair has it |
| PaymentViews.ToDictLastWins | payments/views.py:143 | a key takes the value of its last pair |
| PaymentViews.PairsOnce | payments/views.py:111 | each item splits at its first `=` into key and value |
| PaymentViews.WebhookPairs | payments/views.py:143 | each item gives the text before its first `=` and the unquoted text up to the second |
| PaymentViews.WebhookPairsAgree | payments/views.py:143-160 | the webhook's key is the split key, and its value the part of the full value before any further `=` |
| PaymentViews.HashInput | payments/views.py:158-162 | items whose keys are all "hash" in some case give an empty hash input |
| PaymentViews.BuildHashInput | payments/views.py:158-161 | the loop's string equals the concatenation of the unquoted values of every item whose key is not "hash" in any case |
| PaymentViews.HashInputOfFields | payments/views.py:158-161 | without a hash item the input is all the unquoted values in order |
| PaymentViews.HashInputSkipsHash | payments/views.py:158-161 | a trailing hash item adds nothing to the input |
| PaymentViews.StatusTransitionAsWritten | payments/views.py:180-188 | as written: "cancelled" raises before anything is saved |
| PaymentViews.StatusTransition | payments/views.py:173-192 | as intended (as written, "cancelled" raises, see StatusTransitionAsWritten): "paid" pays the payment and order and sets processing; "cancelled" cancels both; anything else fails the payment and marks the order unpaid with its status kept; no order raises |
| PaymentViews.StatusTransitionDiffers | payments/views.py:184-186 | the two branches agree on every status but "cancelled", where the code as written saves nothing |
| PaymentViews.StatusTransitionIdempotent | payments/views.py:173-192 | applying a status again changes nothing |
| PaymentViews.ReadNotice | payments/views.py:142-171 | an item without `=` makes the body malformed; otherwise the notice carries the body's reference, is authentic exactly when the received hash equals the hash of the other values under the key, and carries the lower-cased status (empty when absent) |
| PaymentViews.Items | payments/views.py:142 | one `key=value` item per field |
| PaymentViews.PlainHashKey | payments/views.py:160 | the key "hash" is plain text |
| PaymentViews.LowerHash | payments/views.py:160 | "hash" lower-cased is itself |
| PaymentViews.EncodeSplits | payments/views.py:142 | splitting an encoded body on `&` gives its items back |
| PaymentViews.ItemsParse | payments/views.py:143-160 | parsing the items of plain fields gives back each field, key and unquoted value |
| PaymentViews.SignedHashEntry | payments/views.py:148 | the parsed hash of a body ending in a hash field is that field's value |
| PaymentViews.SignedHashInput | payments/views.py:158-161 | the hash input of fields plus their hash is the fields' values in order |
| PaymentViews.UnquotedFields | payments/views.py:161 | fields whose values unquote to themselves are unchanged by unquoting |
| PaymentViews.SignedBodyIsAuthentic | payments/views.py:142-171 | a body that Paynow signs the way the initiation signs its payload is read as an authentic notice |
| PaymentViews.SignedFieldsPlain | payments/views.py:142 | plain fields with a plain hash stay plain |
| PaymentViews.AuthenticWhenHashMatches | payments/views.py:157-166 | a well-formed body whose hash equals the signature of its hash input is authentic |
| PaymentViews.Webhook | payments/views.py:137-192 | as intended, with the corrected status branch: malformed is 400 and unknown reference 404, both changing nothing; a wrong hash answers 400 and marks only that payment failed; an authentic notice for a payment without an order answers 500 and changes nothing, and for one with an order answers 200, saving the corrected branch's payment status and order (as written, an authentic "cancelled" notice for a payment with an order also answers 500 and saves nothing) |
| PaymentViews.WebhookReplay | payments/views.py:173-192 | as intended, with the corrected status branch: delivering the same notice twice leaves the tables and the answer as one delivery does |
| PaymentViews.PaidNoticePays | payments/views.py:178-182 | an authentic "paid" notice answers 200, pays the payment and marks its order paid and processing |
| PaymentViews.CheckPaymentStatus | payments/views.py:198-205 | the poll answers 200 exactly when a payment has the reference, with its stored status code, and 404 with no status otherwise |
| PaymentViews.PollAfterPaidNotice | payments/views.py:178-205 | after an authentic "paid" notice for a payment with an order, polling its reference answers 200 with PAID |
| PaymentViews.ParseNotice | payments/views.py:142-171 | the parse computes the notice of the body |
| PaymentViews.ApplyNotice | payments/views.py:147-195 | as intended, with the corrected status branch: the tables and answer become those of the webhook on the old tables, and no other table changes |
| PaymentViews.PaynowUpdate | payments/views.py:137-195 | as intended, with the corrected status branch: the request's effect is the webhook of its body's notice, and no other table changes |
| PaymentViews.AlreadyPaid | payments/views.py:64-69 | as intended: an order is refused exactly when it is paid |
| PaymentViews.AlreadyPaidAsWritten | payments/views.py:65 | as written: the guard never fires |
| PaymentViews.AlreadyPaidAsWrittenNeverFires | payments/views.py:65 | the guard as written never refuses, so it differs from the intended guard on every paid order |
| PaymentViews.PaymentReference | payments/views.py:72 | "ORDER-", the order number, "-" and the uuid's first four hex digits upper-cased: each suffix character is an upper-case hex digit that lower-cases back to the uuid's digit |
| PaymentViews.PaymentReferenceSeparatesOrders | payments/views.py:72 | attempts for different orders with equal-length numbers never share a reference |
| PaymentViews.Payload | payments/views.py:87-95 | seven fields in insertion order, each key with its value: the integration id, the reference, the amount's text, the description, the return URL carrying the reference, the update URL under the configured base, and status "Message" |
| PaymentViews.SignedPayload | payments/views.py:97-99 | the seven fields followed by the hash of their values under the integration key |
| PaymentViews.PayloadHashCoversValues | payments/views.py:97-98 | the hash input is the seven values concatenated in order |
| PaymentViews.ParseReply | payments/views.py:111 | the reply parses exactly when every item has a `=` |
| PaymentViews.AfterReply | payments/views.py:103-127 | a refused request fails the payment (500); an "ok" status stores the provider's reference and redirects (200); any other status fails the payment (400); an unreadable reply leaves it pending (500) |
| PaymentViews.OkReplyRedirects | payments/views.py:113-121 | an "ok" reply redirects to the unquoted browser URL and records the provider's reference |
| PaymentViews.InitiatePayment | payments/views.py:44-127 | as intended, with the paid-order guard corrected (as written it never fires, see AlreadyPaidAsWrittenNeverFires): no id is 400, an unknown order 404 and a paid order 400, all changing nothing; otherwise one pending payment for the order's total is saved, the signed payload is sent, and the reply decides the payment and the answer |
| PaymentViews.RecordPayment | payments/views.py:75-127 | the new payment is stored under its fresh reference and then replaced by the payment as the provider's reply leaves it, the answer is the reply's, and no other table changes |
| PaymentViews.CapturedOrder | payments/views.py:296-298 | a captured order is paid and processing, with every other field kept |
| PaymentViews.CaptureMatchesPaidWebhook | payments/views.py:296-298 | a completed capture leaves an order as a paid Paynow notice does |
| PaymentViews.PayPalCapture | payments/views.py:269-307 | no token is 500 and a foreign or unknown order 404; a paid order is refused (400) before capture; 200 exactly when the capture is COMPLETED, which pays the order; otherwise nothing changes |
| Store.ReplacePaymentKeepsSales | payments/models.py:18-29 | replacing a payment under its reference with one whose order exists keeps the sales tables valid |
| Store.InsertPaymentKeepsSales | payments/models.py:18-29 | adding a payment under a new reference with an existing order keeps the sales tables valid |
| Store.ReplaceOrderKeepsSales | orders/models.py:43 | replacing an order with one keeping its number keeps the sales tables valid |
| Store.Db.constructor | orders/models.py:32-66 | a new database is empty and valid |

## Left out

- Row locks and transactions: `select_for_update` and `transaction.atomic` are modelled as requests running one after another, with a rollback restoring every table on error.
- Network calls to Paynow and PayPal: their replies are inputs (`ProviderReply`, `CaptureReply`, and `haveToken` for the PayPal access token).
- `get_paypal_access_token` and `PayPalCreateOrderView`: they only call PayPal and return its answer.
- A reply body that is not JSON in the PayPal capture: it is folded into `CaptureFailed`.
- Library functions: SHA-512, `slugify`, `unquote`, `random.choices`, `uuid4` and `str(Decimal)` are parameters. The model does not know what they compute.
- The hard-coded tunnel URL of the result URL: it is the parameter `PaynowSettings.resultUrl`.
- The tree library's machinery: ancestors, children and tree caching are walks over an explicit parent map.
- The dashboards and reports (`DashboardSummaryView`, reports and user views): they are ORM aggregations with floating-point conversion.
- `ValidatePromoCodeView`: it reads a field the promo model does not define. The validation it stands for is `OrderSerializers.ValidateCode`.
- Decimal quantisation: DecimalFields round to two places on save, and money here is exact.
- `created_at`, `updated_at`, the payment's UUID key, and the `created_at` ordering of the order listing: `OrderViews.Visible` returns the set of visible orders, not their order.
- Category has two `Meta` classes, and the second replaces the first. So the per-parent unique constraint and the listing order of the first are dropped, and slugs are unique across all categories (`UniqueSlugs`, `SlugInUse`).
- URL routing, the admin display helpers, the product admin, banners, the user model, JWT claims and authentication: these are plumbing. A user is an id and a staff flag.
- `test_connection_view`: it is a diagnostic that only calls the provider.
- Text.Upper and Text.Lower: they map only the ASCII letters. Python's `str.upper()` and `str.lower()` use full Unicode case mapping, which can change the length ("ß" upper-cases to "SS") and maps letters such as "ſ" to "S" and the Kelvin sign to "k". Promo codes and webhook keys are taken to be ASCII.
- OrderSerializers.ValidateCode: the source reads the clock separately for the start and the end check. The model uses one instant `now` for both, so a code that expires between the two reads is not modelled.
- The listing order of names (`Text.StrLeq`) is code-point order. The database's collation decides `order_by('display_order', 'name')` in the source, and it may differ.
- OrderViews.SellLines: the per-line saves are computed on the values of the stock and item tables (`SellEach`) and written once at the end. The source saves each variant as it goes, but the placement runs in one transaction, so no other request sees the steps in between.
- The dead product admin action that calls a manager method that does not exist.
- The webhook computes the hash before the payment lookup (`ReadNotice` then `Webhook`). The lookup in the source comes first, but the hash has no side effect, so the outcomes are the same.
- OrderSerializers.ProductName: the product is modelled by its name on the variant, so a missing product is not a separate case.
- PaymentViews.PaymentReferenceSeparatesOrders is stated for order numbers of equal length. Every generated order number is 14 characters long.
- ProductModels.FullPath: the model requires an acyclic parent map, which the catalogue invariant keeps. The source's walk would not end on a cycle.
- The category serializer's fields other than name, slug, parent and display order (description, image, featured flag, meta fields, timestamps): they have no rule the model reads, and their field checks are not modelled.
- The string fields of `CategoryData` hold the values after the serializer's whitespace trimming. The trimming itself is not modelled, so a name of spaces appears here as the blank name it becomes.
- The category parent is named by its id in `CategoryData`. The serializer looks the parent up by slug; a parent that does not exist is refused either way (`ParentNotFound`).
- The display order perform_create computes for a new child is not checked against the upper bound of the column (`DisplayOrderMax`); a value past it would fail in the database.
- ProductViews.List: the tree listing is ordered by (display_order, name) with the id breaking ties. In the source the roots and children come in the tree library's (tree_id, lft) order. That order follows `order_insertion_by = ['display_order', 'name']`, but a node whose key equals another's goes after it when it is inserted or moved, so ties follow the history of inserts rather than the id.

## Findings

| source | as written | input that shows it | evidently intended | confidence | as-written member | corrected member |
|---|---|---|---|---|---|---|
| orders/views.py:120 | the serializer's `create` returns the validated dictionary, so `order` is a dictionary, no order row exists, and creating the first item raises; every placement rolls back | one valid item of an in-stock variant, no promo, a fresh order number | save an Order row and attach the items, stock decrements and total to it | not executed | OrderViews.PlaceOrderAsWritten | OrderViews.PlaceOrder |
| payments/views.py:185 | one chained assignment sets the payment status to False and then assigns to an attribute that does not exist, so a "cancelled" notice raises and nothing is saved | an authentic notice with status "cancelled" | cancel the payment, mark the order unpaid and set its status to cancelled | not executed | PaymentViews.StatusTransitionAsWritten | PaymentViews.StatusTransition |
| payments/views.py:65 | the boolean `payment_status` is compared with the string 'PAID', which is never equal, so a paid order gets a new payment attempt | an order with `payment_status` True | refuse to initiate a payment for a paid order | not executed | PaymentViews.AlreadyPaidAsWrittenNeverFires | PaymentViews.AlreadyPaid |
