/**
 * The category list/create and detail/update handlers: the queryset and its
 * (display_order, name) ordering, the flat and tree listings, the
 * display-order rule for a new child, the slug rule of an update, and the
 * create and update requests applied to the database.
 */
module ProductViews {
  import opened Basics
  import opened Text
  import opened ProductModels
  import opened ProductSerializers
  import opened Store

  // ---------------------------------------------------------------------
  // Ordering by (display_order, name); the id breaks the ties the database
  // leaves unspecified.

  predicate KeyLeq(x: Category, y: Category)
  {
    x.displayOrder < y.displayOrder ||
    (x.displayOrder == y.displayOrder && x.name != y.name && StrLeq(x.name, y.name)) ||
    (x.displayOrder == y.displayOrder && x.name == y.name && x.id <= y.id)
  }

  lemma KeyLeqTotal(x: Category, y: Category)
    ensures KeyLeq(x, y) || KeyLeq(y, x)
  {
    StrLeqTotal(x.name, y.name);
  }

  lemma KeyLeqTransitive(x: Category, y: Category, z: Category)
    requires KeyLeq(x, y) && KeyLeq(y, z)
    ensures KeyLeq(x, z)
  {
    if x.displayOrder == y.displayOrder == z.displayOrder {
      if x.name != y.name && y.name != z.name {
        StrLeqTransitive(x.name, y.name, z.name);
        if x.name == z.name {
          StrLeqAntisymmetric(x.name, y.name);
        }
      }
    }
  }

  lemma KeyLeqReflexive(x: Category)
    ensures KeyLeq(x, x)
  {
  }

  /** Two categories that each come first of the other have the same id. */
  lemma KeyLeqAntisymmetric(x: Category, y: Category)
    requires KeyLeq(x, y) && KeyLeq(y, x)
    ensures x.id == y.id
  {
    if x.displayOrder == y.displayOrder && x.name != y.name {
      StrLeqAntisymmetric(x.name, y.name);
    }
  }

  /** A finite non-empty set of categories has a first one in the listing order. */
  lemma {:induction false} LeastExists(cats: Categories, s: set<CategoryId>)
    requires s != {} && s <= cats.Keys
    ensures exists m :: IsLeast(cats, s, m)
    decreases s
  {
    var y :| y in s;
    var rest := s - {y};
    assert s == rest + {y};
    KeyLeqReflexive(cats[y]);
    if rest != {} {
      LeastExists(cats, rest);
      var m :| IsLeast(cats, rest, m);
      KeyLeqTotal(cats[m], cats[y]);
      if KeyLeq(cats[m], cats[y]) {
        assert IsLeast(cats, s, m);
      } else {
        forall x | x in rest
          ensures KeyLeq(cats[y], cats[x])
        {
          KeyLeqTransitive(cats[y], cats[m], cats[x]);
        }
        assert IsLeast(cats, s, y);
      }
    } else {
      assert IsLeast(cats, s, y);
    }
  }

  /** `m` comes first among the ids of `s` in listing order. */
  predicate IsLeast(cats: Categories, s: set<CategoryId>, m: CategoryId)
    requires s <= cats.Keys
  {
    m in s && forall x :: x in s ==> KeyLeq(cats[m], cats[x])
  }

  /** In a well-formed table the first id of a set in listing order is unique. */
  lemma LeastUnique(cats: Categories, s: set<CategoryId>)
    requires WellFormed(cats) && s <= cats.Keys
    ensures forall a, b :: IsLeast(cats, s, a) && IsLeast(cats, s, b) ==> a == b
  {
    forall a, b | IsLeast(cats, s, a) && IsLeast(cats, s, b)
      ensures a == b
    {
      KeyLeqAntisymmetric(cats[a], cats[b]);
    }
  }

  /** The first id of a non-empty set in listing order. */
  function Least(cats: Categories, s: set<CategoryId>): (m: CategoryId)
    requires WellFormed(cats) && s != {} && s <= cats.Keys
    ensures IsLeast(cats, s, m)
  {
    LeastExists(cats, s);
    LeastUnique(cats, s);
    var m :| IsLeast(cats, s, m);
    m
  }

  /** The ids of `s` in listing order: the first one, then the rest in order. */
  function Ordered(cats: Categories, s: set<CategoryId>): (r: seq<CategoryId>)
    requires WellFormed(cats) && s <= cats.Keys
    ensures |r| == |s|
    ensures forall i :: 0 <= i < |r| ==> r[i] in s
    decreases s
  {
    if s == {} then []
    else
      var m := Least(cats, s);
      [m] + Ordered(cats, s - {m})
  }

  /** The listing holds every id of `s` once, sorted by (display_order, name). */
  lemma {:induction false} OrderedSpec(cats: Categories, s: set<CategoryId>)
    requires WellFormed(cats) && s <= cats.Keys
    ensures Distinct(Ordered(cats, s))
    ensures forall x :: x in s ==> x in Ordered(cats, s)
    ensures forall i, j :: 0 <= i < j < |Ordered(cats, s)| ==>
      KeyLeq(cats[Ordered(cats, s)[i]], cats[Ordered(cats, s)[j]])
    decreases s
  {
    if s != {} {
      var r := Ordered(cats, s);
      var m := r[0];
      var rest := Ordered(cats, s - {m});
      assert r == [m] + rest;
      assert forall x :: x in s ==> KeyLeq(cats[m], cats[x]);
      OrderedSpec(cats, s - {m});
      forall x | x in s
        ensures x in r
      {
        if x != m {
          assert x in s - {m};
        }
      }
    }
  }

  // ---------------------------------------------------------------------
  // Listing

  function ChildrenOf(cats: Categories, parent: Option<CategoryId>): set<CategoryId>
  {
    set id | id in cats && cats[id].parent == parent
  }

  /**
   * The list queryset: the roots, or with a non-empty `parent` parameter the
   * children of the category with that slug; in listing order.
   */
  function Queryset(cats: Categories, parentSlug: Option<string>): (r: seq<CategoryId>)
    requires WellFormed(cats)
    ensures Distinct(r)
    ensures forall i :: 0 <= i < |r| ==> r[i] in cats
    ensures forall i, j :: 0 <= i < j < |r| ==> KeyLeq(cats[r[i]], cats[r[j]])
    ensures forall id :: id in r <==> (id in cats &&
      if parentSlug.Some? && parentSlug.value != "" then
        cats[id].parent.Some? && cats[cats[id].parent.value].slug == parentSlug.value
      else
        cats[id].parent.None?)
  {
    var s := if parentSlug.Some? && parentSlug.value != "" then
      set id | id in cats && cats[id].parent.Some? && cats[cats[id].parent.value].slug == parentSlug.value
    else
      ChildrenOf(cats, None);
    OrderedSpec(cats, s);
    Ordered(cats, s)
  }

  /** A serialised category in the tree listing. */
  datatype TreeNode = TreeNode(id: CategoryId, children: seq<TreeNode>)

  /** How many steps the walk from c takes to leave the tree. */
  function Depth(cats: Categories, c: Option<CategoryId>): nat
  {
    |Chain(cats, c, |cats|)|
  }

  lemma DepthOfChild(cats: Categories, c: CategoryId)
    requires WellFormed(cats) && Acyclic(cats) && c in cats
    ensures Depth(cats, Some(c)) == Depth(cats, cats[c].parent) + 1 <= |cats|
  {
    var p := cats[c].parent;
    assert Rooted(cats, Some(c), |cats|);
    assert Chain(cats, Some(c), |cats|) == [c] + Chain(cats, p, |cats| - 1);
    RootedMono(cats, p, |cats| - 1, |cats|);
  }

  /** The subtree of a category: the category with its children's subtrees in listing order. */
  ghost function Subtree(cats: Categories, id: CategoryId): TreeNode
    requires WellFormed(cats) && Acyclic(cats) && id in cats
    decreases |cats| - Depth(cats, Some(id))
  {
    var kids := Ordered(cats, ChildrenOf(cats, Some(id)));
    DepthOfChild(cats, id);
    forall k | k in kids
      ensures Depth(cats, Some(k)) == Depth(cats, Some(id)) + 1 <= |cats|
    {
      DepthOfChild(cats, k);
    }
    TreeNode(id, seq(|kids|, i requires 0 <= i < |kids| => Subtree(cats, kids[i])))
  }

  /** A node carries children exactly when the category has children. */
  lemma SubtreeChildren(cats: Categories, id: CategoryId)
    requires WellFormed(cats) && Acyclic(cats) && id in cats
    ensures |Subtree(cats, id).children| == |ChildrenOf(cats, Some(id))|
    ensures forall i :: 0 <= i < |Subtree(cats, id).children| ==>
      Subtree(cats, id).children[i].id in ChildrenOf(cats, Some(id))
  {
  }

  /**
   * The recursive tree serialiser: each node is serialised, and a node with
   * children gets its `children` replaced by the serialisation of its children.
   */
  method RecursiveSerialize(cats: Categories, nodes: seq<CategoryId>, ghost parent: Option<CategoryId>)
    returns (data: seq<TreeNode>)
    requires WellFormed(cats) && Acyclic(cats)
    requires forall i :: 0 <= i < |nodes| ==> nodes[i] in cats && cats[nodes[i]].parent == parent
    ensures |data| == |nodes|
    ensures forall i :: 0 <= i < |nodes| ==> data[i] == Subtree(cats, nodes[i])
    decreases |cats| - Depth(cats, parent)
  {
    data := seq(|nodes|, i requires 0 <= i < |nodes| => TreeNode(nodes[i], []));
    var i := 0;
    while i < |nodes|
      invariant 0 <= i <= |nodes| && |data| == |nodes|
      invariant forall k :: 0 <= k < i ==> data[k] == Subtree(cats, nodes[k])
      invariant forall k :: i <= k < |nodes| ==> data[k] == TreeNode(nodes[k], [])
    {
      var node := nodes[i];
      var children := Ordered(cats, ChildrenOf(cats, Some(node)));
      if |children| > 0 {
        DepthOfChild(cats, node);
        var sub := RecursiveSerialize(cats, children, Some(node));
        data := data[i := TreeNode(node, sub)];
      }
      i := i + 1;
    }
  }

  datatype Listing =
    | Flat(categories: seq<CategoryId>, count: nat)
    | Tree(nodes: seq<TreeNode>, count: nat)

  /**
   * GET on the category list: the tree format when a `tree` query key is
   * present, the flat format otherwise.
   */
  method List(cats: Categories, params: map<string, string>) returns (r: Listing)
    requires WellFormed(cats) && Acyclic(cats)
    ensures r.Tree? <==> "tree" in params
    ensures r.Flat? ==>
      var q := Queryset(cats, if "parent" in params then Some(params["parent"]) else None);
      r.categories == q && r.count == |q|
    ensures r.Tree? ==>
      var roots := Ordered(cats, ChildrenOf(cats, None));
      |r.nodes| == |roots| == r.count &&
      forall i :: 0 <= i < |roots| ==> r.nodes[i] == Subtree(cats, roots[i])
  {
    if "tree" in params {
      var roots := Ordered(cats, ChildrenOf(cats, None));
      var data := RecursiveSerialize(cats, roots, None);
      r := Tree(data, |data|);
    } else {
      var q := Queryset(cats, if "parent" in params then Some(params["parent"]) else None);
      r := Flat(q, |q|);
    }
  }

  // ---------------------------------------------------------------------
  // Create and update

  /** The largest display order among the children of `parent`, if it has any. */
  function LastChildOrder(cats: Categories, parent: CategoryId): (r: Option<nat>)
    ensures r.None? <==> ChildrenOf(cats, Some(parent)) == {}
    ensures r.Some? ==> exists c :: c in ChildrenOf(cats, Some(parent)) && cats[c].displayOrder == r.value
    ensures r.Some? ==> forall c :: c in ChildrenOf(cats, Some(parent)) ==> cats[c].displayOrder <= r.value
  {
    var orders := set c | c in ChildrenOf(cats, Some(parent)) :: cats[c].displayOrder;
    if orders == {} then
      assert forall c :: c in ChildrenOf(cats, Some(parent)) ==> cats[c].displayOrder in orders;
      None
    else
      MaxExists(orders);
      var m :| m in orders && forall x :: x in orders ==> x <= m;
      assert forall c :: c in ChildrenOf(cats, Some(parent)) ==> cats[c].displayOrder in orders;
      var c :| c in ChildrenOf(cats, Some(parent)) && cats[c].displayOrder == m;
      Some(m)
  }

  /**
   * perform_create: with a parent given, display_order becomes one more than
   * the largest among the parent's children (0 when there are none);
   * without a parent the validated data are left as they are.
   */
  function DisplayOrderOnCreate(cats: Categories, data: CategoryData): (r: CategoryData)
    ensures !(data.parent.Given? && data.parent.value.Some?) ==> r == data
    ensures data.parent.Given? && data.parent.value.Some? ==>
      var kids := ChildrenOf(cats, data.parent.value);
      r == data.(displayOrder := r.displayOrder) && r.displayOrder.Given? &&
      r.displayOrder.value >= 1 &&
      (forall c :: c in kids ==> cats[c].displayOrder < r.displayOrder.value) &&
      (r.displayOrder.value == 1 || exists c :: c in kids && cats[c].displayOrder + 1 == r.displayOrder.value)
  {
    if data.parent.Given? && data.parent.value.Some? then
      var last := LastChildOrder(cats, data.parent.value.value);
      data.(displayOrder := Given((if last.Some? then last.value else 0) + 1))
    else
      data
  }

  /**
   * perform_update: a name in the validated data regenerates the slug among
   * the siblings under the given parent, or else the current one.
   */
  method SlugOnPerformUpdate(cats: Categories, instance: Category, data: CategoryData, slugify: string -> string)
    returns (out: CategoryData)
    ensures data.name.Absent? ==> out == data
    ensures data.name.Given? ==>
      out == data.(slug := out.slug) && out.slug.Given? &&
      FirstFree(SiblingSlugs(cats, GetOr(data.parent, instance.parent)), slugify(data.name.value), out.slug.value)
  {
    out := data;
    if data.name.Given? {
      var slug := GenerateUniqueSlug(cats, data.name.value, GetOr(data.parent, instance.parent), slugify);
      out := data.(slug := Given(slug));
    }
  }

  /**
   * A refused request: the field checks of is_valid (400, every error
   * listed), or the save hitting the unique slug column.
   */
  datatype CategoryError = Invalid(errors: set<FieldError>) | DuplicateSlug

  /** Inserting a row under the next id, with a known parent and a fresh slug, keeps the table's constraints. */
  lemma InsertKeepsCatalogue(cats: Categories, nextId: nat, row: Category)
    requires CatalogueValid(cats, nextId) && row.id == nextId
    requires row.parent.Some? ==> row.parent.value in cats
    requires forall other :: other in cats ==> cats[other].slug != row.slug
    ensures CatalogueValid(cats[nextId := row], nextId + 1)
  {
    InsertKeepsAcyclic(cats, row);
  }

  /**
   * Replacing a row by one whose parent is not among the row's descendants
   * and whose slug no other row uses keeps the table's constraints.
   */
  lemma ReplaceKeepsCatalogue(cats: Categories, nextId: nat, id: CategoryId, row: Category)
    requires CatalogueValid(cats, nextId) && id in cats && row.id == id
    requires row.parent.Some? ==> row.parent.value in cats && id !in Ancestors(cats, row.parent)
    requires forall other :: other in cats && other != id ==> cats[other].slug != row.slug
    ensures CatalogueValid(cats[id := row], nextId)
  {
    ReplaceKeepsTree(cats, id, row);
    ReplaceKeepsUniqueSlugs(cats, id, row);
    ReplaceKeepsIds(cats, nextId, id, row, cats[id := row]);
  }

  /** A row whose new parent is not among its descendants keeps the parent map a tree. */
  lemma ReplaceKeepsTree(cats: Categories, id: CategoryId, row: Category)
    requires WellFormed(cats) && Acyclic(cats) && id in cats && row.id == id
    requires row.parent.Some? ==> row.parent.value in cats && id !in Ancestors(cats, row.parent)
    ensures WellFormed(cats[id := row]) && Acyclic(cats[id := row])
  {
    ReparentKeepsAcyclic(cats, id, row.parent);
    SameParentsKeepTree(cats[id := cats[id].(parent := row.parent)], cats[id := row]);
  }

  /** Replacing a row keeps every id below the counter. */
  lemma ReplaceKeepsIds(cats: Categories, nextId: nat, id: CategoryId, row: Category, cats': Categories)
    requires forall x :: x in cats ==> 0 < x < nextId
    requires id in cats && cats' == cats[id := row]
    ensures forall x :: x in cats' ==> 0 < x < nextId
  {
  }

  /** A row whose slug no other row uses keeps the slugs unique. */
  lemma ReplaceKeepsUniqueSlugs(cats: Categories, id: CategoryId, row: Category)
    requires UniqueSlugs(cats)
    requires forall other :: other in cats && other != id ==> cats[other].slug != row.slug
    ensures UniqueSlugs(cats[id := row])
  {
  }

  /**
   * The slug the serializer's create hands to the model's save: a given
   * non-empty slug, else the first free candidate among the siblings under
   * the given parent (the roots when none).
   */
  ghost predicate CreateSlug(cats: Categories, data: CategoryData, slugify: string -> string, s: string)
    requires data.name.Given?
  {
    if data.slug.Given? && data.slug.value != "" then s == data.slug.value
    else FirstFree(SiblingSlugs(cats, GetOr(data.parent, None)), slugify(data.name.value), s)
  }

  /**
   * The row a POST inserts under `id`: the given name and parent, the display
   * order of perform_create, and the slug of create as the model's save
   * stores it.
   */
  ghost predicate CreatedRow(cats: Categories, id: CategoryId, data: CategoryData, slugify: string -> string, row: Category)
    requires data.name.Given?
    requires data.parent.Given? && data.parent.value.Some? ==> data.parent.value.value in cats
  {
    row.id == id && row.name == data.name.value && row.parent == GetOr(data.parent, None) &&
    row.displayOrder == GetOr(DisplayOrderOnCreate(cats, data).displayOrder, 0) &&
    exists s :: CreateSlug(cats, data, slugify, s) && row.slug == SavedSlug(cats, row.(slug := s), slugify)
  }

  /** The request and the table determine the created row. */
  lemma CreatedRowUnique(cats: Categories, id: CategoryId, data: CategoryData, slugify: string -> string, a: Category, b: Category)
    requires data.name.Given?
    requires data.parent.Given? && data.parent.value.Some? ==> data.parent.value.value in cats
    requires CreatedRow(cats, id, data, slugify, a) && CreatedRow(cats, id, data, slugify, b)
    ensures a == b
  {
    var sa :| CreateSlug(cats, data, slugify, sa) && a.slug == SavedSlug(cats, a.(slug := sa), slugify);
    var sb :| CreateSlug(cats, data, slugify, sb) && b.slug == SavedSlug(cats, b.(slug := sb), slugify);
    if !(data.slug.Given? && data.slug.value != "") {
      FirstFreeUnique(SiblingSlugs(cats, GetOr(data.parent, None)), slugify(data.name.value), sa, sb);
    }
    assert a.(slug := sa) == b.(slug := sb);
  }

  /**
   * The row a POST would insert under `id`: display order (perform_create),
   * slug (the serializer's create), then the model's save, which fills an
   * empty slug.
   */
  method NewCategoryRow(cats: Categories, id: CategoryId, data: CategoryData, slugify: string -> string)
    returns (row: Category)
    requires data.name.Given?
    requires data.parent.Given? && data.parent.value.Some? ==> data.parent.value.value in cats
    requires data.displayOrder.Given? ==> data.displayOrder.value >= 0
    ensures CreatedRow(cats, id, data, slugify, row)
    ensures row.id == id && row.parent == GetOr(data.parent, None)
    ensures data.slug.Given? && data.slug.value != "" ==> row.slug == data.slug.value
  {
    var data1 := DisplayOrderOnCreate(cats, data);
    var data2 := SlugOnCreate(cats, data1, slugify);
    var s := GetOr(data2.slug, "");
    row := Category(id, data2.name.value, s, GetOr(data2.parent, None), GetOr(data2.displayOrder, 0));
    assert CreateSlug(cats, data, slugify, s);
    row := row.(slug := SavedSlug(cats, row, slugify));
    assert row.(slug := s) == Category(id, data2.name.value, s, GetOr(data2.parent, None), GetOr(data2.displayOrder, 0));
  }

  /**
   * The insert of a built row under the next id: it succeeds exactly when no
   * row has its slug (the unique column), and otherwise nothing changes.
   */
  method InsertCategory(db: Db, row: Category) returns (r: Result<CategoryId, CategoryError>)
    requires db.Valid() && row.id == db.nextCategoryId
    requires row.parent.Some? ==> row.parent.value in db.categories
    modifies db
    ensures db.Valid()
    ensures db.variants == old(db.variants) && db.promos == old(db.promos) && db.orders == old(db.orders)
    ensures db.items == old(db.items) && db.payments == old(db.payments) && db.nextOrderId == old(db.nextOrderId)
    ensures r.Err? <==> SlugInUse(old(db.categories), None, row.slug)
    ensures r.Err? ==> r.error == DuplicateSlug && db.categories == old(db.categories) && db.nextCategoryId == old(db.nextCategoryId)
    ensures r.Ok? ==>
      r.value == row.id && r.value !in old(db.categories) &&
      db.categories == old(db.categories)[r.value := row] && db.nextCategoryId == r.value + 1
  {
    if SlugInUse(db.categories, None, row.slug) {
      return Err(DuplicateSlug);
    }
    var cats, id := db.categories, db.nextCategoryId;
    InsertKeepsCatalogue(cats, id, row);
    assert id !in cats;
    db.SetCatalogue(cats[id := row], id + 1);
    r := Ok(id);
  }

  /**
   * POST on the category list: is_valid refuses data that fail a field
   * check, listing every error, and changes nothing; otherwise the row is
   * built as CreatedRow says (`row`), and it is inserted under the next id
   * exactly when no row has its slug, and else the insert fails and nothing
   * changes. A slug the request gives has passed the unique check, so only a
   * generated slug can collide.
   */
  method CreateCategory(db: Db, data: CategoryData, slugify: string -> string)
    returns (r: Result<CategoryId, CategoryError>, ghost row: Category)
    requires db.Valid()
    modifies db
    ensures db.Valid()
    ensures db.variants == old(db.variants) && db.promos == old(db.promos) && db.orders == old(db.orders)
    ensures db.items == old(db.items) && db.payments == old(db.payments) && db.nextOrderId == old(db.nextOrderId)
    ensures r.Err? && r.error.Invalid? <==> !ValidData(old(db.categories), None, data, true)
    ensures r.Err? && r.error.Invalid? ==> r.error.errors == Refusals(old(db.categories), None, data, true)
    ensures ValidData(old(db.categories), None, data, true) ==>
      CreatedRow(old(db.categories), old(db.nextCategoryId), data, slugify, row) &&
      (r.Err? <==> SlugInUse(old(db.categories), None, row.slug))
    ensures ValidData(old(db.categories), None, data, true) && data.slug.Given? ==> r.Ok?
    ensures r.Err? ==> db.categories == old(db.categories) && db.nextCategoryId == old(db.nextCategoryId)
    ensures r.Err? && !r.error.Invalid? ==> r.error == DuplicateSlug
    ensures r.Ok? ==>
      r.value == old(db.nextCategoryId) && r.value !in old(db.categories) &&
      db.categories == old(db.categories)[r.value := row] && db.nextCategoryId == r.value + 1
  {
    row := Category(db.nextCategoryId, "", "", None, 0);
    var checked := IsValid(db.categories, None, data, true);
    if checked.Err? {
      return Err(Invalid(checked.error)), row;
    }
    var built := NewCategoryRow(db.categories, db.nextCategoryId, data, slugify);
    row := built;
    r := InsertCategory(db, built);
  }

  /**
   * The slug the model's save receives on update: with a name given,
   * perform_update's first free candidate among the siblings under the new
   * parent, or else the current one (the serializer's update then keeps it);
   * without a name, the given slug or the current one.
   */
  ghost predicate UpdateSlug(cats: Categories, instance: Category, data: CategoryData, slugify: string -> string, s: string)
  {
    if data.name.Given? then FirstFree(SiblingSlugs(cats, GetOr(data.parent, instance.parent)), slugify(data.name.value), s)
    else s == GetOr(data.slug, instance.slug)
  }

  /** The row an update stores: each given field replaces the current one, and the slug is UpdateSlug's after the save. */
  ghost predicate UpdatedRow(cats: Categories, instance: Category, data: CategoryData, slugify: string -> string, row: Category)
    requires GetOr(data.parent, instance.parent).Some? ==> GetOr(data.parent, instance.parent).value in cats
  {
    row.id == instance.id && row.name == GetOr(data.name, instance.name) &&
    row.parent == GetOr(data.parent, instance.parent) &&
    row.displayOrder == GetOr(data.displayOrder, instance.displayOrder) &&
    exists s :: UpdateSlug(cats, instance, data, slugify, s) && row.slug == SavedSlug(cats, row.(slug := s), slugify)
  }

  /** The request and the table determine the updated row. */
  lemma UpdatedRowUnique(cats: Categories, instance: Category, data: CategoryData, slugify: string -> string, a: Category, b: Category)
    requires GetOr(data.parent, instance.parent).Some? ==> GetOr(data.parent, instance.parent).value in cats
    requires UpdatedRow(cats, instance, data, slugify, a) && UpdatedRow(cats, instance, data, slugify, b)
    ensures a == b
  {
    var sa :| UpdateSlug(cats, instance, data, slugify, sa) && a.slug == SavedSlug(cats, a.(slug := sa), slugify);
    var sb :| UpdateSlug(cats, instance, data, slugify, sb) && b.slug == SavedSlug(cats, b.(slug := sb), slugify);
    if data.name.Given? {
      FirstFreeUnique(SiblingSlugs(cats, GetOr(data.parent, instance.parent)), slugify(data.name.value), sa, sb);
    }
    assert a.(slug := sa) == b.(slug := sb);
  }

  /**
   * The row an update stores: perform_update's slug rule, the serializer's
   * update (which writes each given field), then the model's save.
   */
  method UpdatedCategoryRow(cats: Categories, instance: Category, data: CategoryData, slugify: string -> string)
    returns (row: Category)
    requires GetOr(data.parent, instance.parent).Some? ==> GetOr(data.parent, instance.parent).value in cats
    requires data.displayOrder.Given? ==> data.displayOrder.value >= 0
    ensures UpdatedRow(cats, instance, data, slugify, row)
    ensures row.id == instance.id && row.parent == GetOr(data.parent, instance.parent)
  {
    var data1 := SlugOnPerformUpdate(cats, instance, data, slugify);
    var data2 := SlugOnUpdate(cats, instance, data1, slugify);
    var s := GetOr(data2.slug, instance.slug);
    assert UpdateSlug(cats, instance, data, slugify, s);
    row := instance.(
      name := GetOr(data2.name, instance.name),
      slug := s,
      parent := GetOr(data2.parent, instance.parent),
      displayOrder := GetOr(data2.displayOrder, instance.displayOrder));
    row := row.(slug := SavedSlug(cats, row, slugify));
  }

  /**
   * PUT (`partial` false) or PATCH (`partial` true) on a category: is_valid
   * refuses data that fail a field check, listing every error, and changes
   * nothing (a self parent is named as such); otherwise the slug rule of
   * perform_update, the serializer's update and the model's save build
   * `row`, which replaces the category exactly when no other row has its
   * slug. A slug given without a name has passed the unique check and is
   * kept, so that update cannot collide.
   */
  method UpdateCategory(db: Db, id: CategoryId, data: CategoryData, partial: bool, slugify: string -> string)
    returns (r: Result<CategoryId, CategoryError>, ghost row: Category)
    requires db.Valid() && id in db.categories
    modifies db
    ensures db.Valid()
    ensures db.variants == old(db.variants) && db.promos == old(db.promos) && db.orders == old(db.orders)
    ensures db.items == old(db.items) && db.payments == old(db.payments) && db.nextOrderId == old(db.nextOrderId)
    ensures db.nextCategoryId == old(db.nextCategoryId)
    ensures data.parent == Given(Some(id)) ==>
      r.Err? && r.error.Invalid? && BadParent(SelfParent) in r.error.errors
    ensures r.Err? && r.error.Invalid? <==> !ValidData(old(db.categories), Some(id), data, !partial)
    ensures r.Err? && r.error.Invalid? ==> r.error.errors == Refusals(old(db.categories), Some(id), data, !partial)
    ensures ValidData(old(db.categories), Some(id), data, !partial) ==>
      UpdatedRow(old(db.categories), old(db.categories)[id], data, slugify, row) &&
      (r.Err? <==> SlugInUse(old(db.categories), Some(id), row.slug))
    ensures ValidData(old(db.categories), Some(id), data, !partial) && data.name.Absent? && data.slug.Given? ==> r.Ok?
    ensures r.Err? ==> db.categories == old(db.categories)
    ensures r.Err? && !r.error.Invalid? ==> r.error == DuplicateSlug
    ensures r.Ok? ==> r.value == id && db.categories == old(db.categories)[id := row]
  {
    var cats := db.categories;
    row := cats[id];
    RefusalsEmpty(cats, Some(id), data, !partial);
    if data.parent == Given(Some(id)) {
      AncestorsStep(cats, id);
    }
    var checked := IsValid(cats, Some(id), data, !partial);
    if checked.Err? {
      return Err(Invalid(checked.error)), row;
    }
    if data.parent.Absent? {
      NotOwnAncestor(cats, id);
    }
    r, row := SaveCategory(db, id, data, slugify);
  }

  /**
   * The update once the parent is accepted: the slug rule of perform_update,
   * the serializer's update and the model's save build `row`, which replaces
   * the category exactly when no other row has its slug.
   */
  method SaveCategory(db: Db, id: CategoryId, data: CategoryData, slugify: string -> string)
    returns (r: Result<CategoryId, CategoryError>, ghost row: Category)
    requires db.Valid() && id in db.categories
    requires GetOr(data.parent, db.categories[id].parent).Some? ==>
      GetOr(data.parent, db.categories[id].parent).value in db.categories &&
      id !in Ancestors(db.categories, GetOr(data.parent, db.categories[id].parent))
    requires data.displayOrder.Given? ==> data.displayOrder.value >= 0
    modifies db
    ensures db.Valid()
    ensures db.variants == old(db.variants) && db.promos == old(db.promos) && db.orders == old(db.orders)
    ensures db.items == old(db.items) && db.payments == old(db.payments) && db.nextOrderId == old(db.nextOrderId)
    ensures db.nextCategoryId == old(db.nextCategoryId)
    ensures UpdatedRow(old(db.categories), old(db.categories)[id], data, slugify, row)
    ensures r.Err? <==> SlugInUse(old(db.categories), Some(id), row.slug)
    ensures r.Err? ==> r.error == DuplicateSlug && db.categories == old(db.categories)
    ensures r.Ok? ==> r.value == id && db.categories == old(db.categories)[id := row]
  {
    var cats := db.categories;
    var built := UpdatedCategoryRow(cats, cats[id], data, slugify);
    row := built;
    if SlugInUse(cats, Some(id), built.slug) {
      return Err(DuplicateSlug), row;
    }
    ReplaceKeepsCatalogue(cats, db.nextCategoryId, id, built);
    db.SetCatalogue(cats[id := built], db.nextCategoryId);
    r := Ok(id);
  }
}
