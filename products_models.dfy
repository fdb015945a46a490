/**
 * The catalogue records of products/models.py: categories linked by an
 * explicit parent map (standing for the MPTT tree), product variants with
 * their stock and prices, and product images.  Django's `slugify` is a
 * parameter of type `string -> string`.
 */
module ProductModels {

  import opened Basics
  import opened Text

  type CategoryId = nat

  datatype Category = Category(
    id: CategoryId,
    name: string,
    slug: string,
    parent: Option<CategoryId>,
    displayOrder: nat)

  /** The category table, keyed by primary key. */
  type Categories = map<CategoryId, Category>

  /** Every row is stored under its own key and every parent reference resolves. */
  predicate WellFormed(cats: Categories)
  {
    forall id :: id in cats ==>
      cats[id].id == id && (cats[id].parent.Some? ==> cats[id].parent.value in cats)
  }

  /** The walk c, parent of c, ... reaches a root within n steps. */
  predicate Rooted(cats: Categories, c: Option<CategoryId>, n: nat)
    decreases n
  {
    c.None? || (n > 0 && c.value in cats && Rooted(cats, cats[c.value].parent, n - 1))
  }

  /** The ids visited by at most n steps of that walk, starting category first. */
  function Chain(cats: Categories, c: Option<CategoryId>, n: nat): (r: seq<CategoryId>)
    ensures forall i :: 0 <= i < |r| ==> r[i] in cats
    ensures |r| <= n
    decreases n
  {
    if n == 0 || c.None? || c.value !in cats then []
    else [c.value] + Chain(cats, cats[c.value].parent, n - 1)
  }

  /** No parent walk goes round a cycle: every walk reaches a root within |cats| steps. */
  predicate Acyclic(cats: Categories)
  {
    forall id :: id in cats ==> Rooted(cats, Some(id), |cats|)
  }

  /** Every walk reaches a root, after some number of steps. */
  ghost predicate AllRooted(cats: Categories)
  {
    forall id :: id in cats ==> exists n: nat :: Rooted(cats, Some(id), n)
  }

  ghost predicate HasRoot(cats: Categories, c: Option<CategoryId>)
  {
    exists n: nat :: Rooted(cats, c, n)
  }

  /** More steps than needed change neither rootedness nor the walk. */
  lemma {:induction false} RootedMono(cats: Categories, c: Option<CategoryId>, n: nat, m: nat)
    requires Rooted(cats, c, n) && n <= m
    ensures Rooted(cats, c, m)
    ensures Chain(cats, c, n) == Chain(cats, c, m)
    decreases n
  {
    if c.Some? {
      RootedMono(cats, cats[c.value].parent, n - 1, m - 1);
    }
  }

  /** The ancestors of c, c itself first and the root last (get_ancestors reversed, include_self). */
  ghost function Ancestors(cats: Categories, c: Option<CategoryId>): seq<CategoryId>
    requires HasRoot(cats, c)
  {
    var n: nat :| Rooted(cats, c, n); Chain(cats, c, n)
  }

  lemma AncestorsIsChain(cats: Categories, c: Option<CategoryId>, n: nat)
    requires Rooted(cats, c, n)
    ensures HasRoot(cats, c) && Ancestors(cats, c) == Chain(cats, c, n)
  {
    var k: nat :| Rooted(cats, c, k) && Ancestors(cats, c) == Chain(cats, c, k);
    if k <= n { RootedMono(cats, c, k, n); } else { RootedMono(cats, c, n, k); }
  }

  /** One step of the walk: the ancestors of x are x followed by the ancestors of its parent. */
  lemma AncestorsStep(cats: Categories, x: CategoryId)
    requires x in cats && HasRoot(cats, Some(x))
    ensures HasRoot(cats, cats[x].parent)
    ensures Ancestors(cats, Some(x)) == [x] + Ancestors(cats, cats[x].parent)
  {
    var n: nat :| Rooted(cats, Some(x), n);
    AncestorsIsChain(cats, Some(x), n);
    AncestorsIsChain(cats, cats[x].parent, n - 1);
  }

  lemma AncestorsOfRoot(cats: Categories)
    ensures HasRoot(cats, None) && Ancestors(cats, None) == []
  {
    AncestorsIsChain(cats, None, 0);
  }

  /** Following a rooted walk k steps lands on a category rooted within the remaining steps. */
  lemma {:induction false} RootedAlong(cats: Categories, c: Option<CategoryId>, n: nat, m: nat, k: nat)
    requires Rooted(cats, c, n) && k < |Chain(cats, c, m)|
    ensures k < n && Rooted(cats, Some(Chain(cats, c, m)[k]), n - k)
    decreases n
  {
    if k > 0 {
      RootedAlong(cats, cats[c.value].parent, n - 1, m - 1, k - 1);
    }
  }

  /** A category whose walk reaches a root is not among the ancestors of its own parent. */
  lemma {:induction false} NoReturn(cats: Categories, x: CategoryId, n: nat, m: nat)
    requires x in cats && Rooted(cats, Some(x), n)
    ensures x !in Chain(cats, cats[x].parent, m)
    decreases n
  {
    var ch := Chain(cats, cats[x].parent, m);
    if x in ch {
      var k :| 0 <= k < |ch| && ch[k] == x;
      RootedAlong(cats, cats[x].parent, n - 1, m, k);
      NoReturn(cats, x, n - 1 - k, m);
    }
  }

  /** In an acyclic table no category is its own ancestor through its parent. */
  lemma NotOwnAncestor(cats: Categories, x: CategoryId)
    requires x in cats && Acyclic(cats)
    ensures HasRoot(cats, cats[x].parent)
    ensures x !in Ancestors(cats, cats[x].parent)
  {
    var n := |cats|;
    assert Rooted(cats, Some(x), n);
    AncestorsIsChain(cats, cats[x].parent, n - 1);
    NoReturn(cats, x, n, n - 1);
  }

  predicate Distinct(s: seq<CategoryId>)
  {
    forall i, j :: 0 <= i < j < |s| ==> s[i] != s[j]
  }

  lemma {:induction false} DistinctBound(s: seq<CategoryId>, ids: set<CategoryId>)
    requires Distinct(s) && forall i :: 0 <= i < |s| ==> s[i] in ids
    ensures |s| <= |ids|
  {
    if |s| > 0 {
      DistinctBound(s[1..], ids - {s[0]});
    }
  }

  /** A walk that reaches a root does so exactly after the categories it lists. */
  lemma {:induction false} ChainStopsAtRoot(cats: Categories, c: Option<CategoryId>, n: nat)
    requires Rooted(cats, c, n)
    ensures Rooted(cats, c, |Chain(cats, c, n)|)
    decreases n
  {
    if c.Some? {
      ChainStopsAtRoot(cats, cats[c.value].parent, n - 1);
    }
  }

  /** A walk that reaches a root visits no category twice. */
  lemma {:induction false} ChainDistinct(cats: Categories, c: Option<CategoryId>, n: nat)
    requires Rooted(cats, c, n)
    ensures Distinct(Chain(cats, c, n))
    decreases n
  {
    if c.Some? {
      var x := c.value;
      ChainDistinct(cats, cats[x].parent, n - 1);
      NoReturn(cats, x, n, n - 1);
      assert Chain(cats, c, n) == [x] + Chain(cats, cats[x].parent, n - 1);
    }
  }

  /** A walk that reaches a root at all reaches it within |cats| steps. */
  lemma RootedWithinSize(cats: Categories, c: Option<CategoryId>, n: nat)
    requires Rooted(cats, c, n)
    ensures Rooted(cats, c, |cats|)
  {
    var ch := Chain(cats, c, n);
    ChainDistinct(cats, c, n);
    DistinctBound(ch, cats.Keys);
    ChainStopsAtRoot(cats, c, n);
    RootedMono(cats, c, |ch|, |cats|);
  }

  lemma AllRootedIsAcyclic(cats: Categories)
    requires AllRooted(cats)
    ensures Acyclic(cats)
  {
    forall id | id in cats
      ensures Rooted(cats, Some(id), |cats|)
    {
      var n: nat :| Rooted(cats, Some(id), n);
      RootedWithinSize(cats, Some(id), n);
    }
  }

  /** With an acyclic table the bounded walk of |cats| steps lists all ancestors. */
  lemma AncestorsBounded(cats: Categories, c: Option<CategoryId>)
    requires Acyclic(cats) && (c.Some? ==> c.value in cats)
    ensures HasRoot(cats, c) && Ancestors(cats, c) == Chain(cats, c, |cats|)
  {
    AncestorsIsChain(cats, c, |cats|);
  }

  /** Rooted walks that avoid x are the same after x's row changes. */
  lemma {:induction false} WalkAvoiding(cats: Categories, cats': Categories, x: CategoryId, c: Option<CategoryId>, n: nat)
    requires Rooted(cats, c, n) && x !in Chain(cats, c, n)
    requires cats'.Keys == cats.Keys
    requires forall y :: y in cats && y != x ==> cats'[y].parent == cats[y].parent
    ensures Rooted(cats', c, n) && Chain(cats', c, n) == Chain(cats, c, n)
    decreases n
  {
    if c.Some? {
      WalkAvoiding(cats, cats', x, cats[c.value].parent, n - 1);
    }
  }

  /** Giving x a parent q that is already rooted in the new table keeps every walk finite. */
  lemma {:induction false} WalkLifted(cats: Categories, cats': Categories, x: CategoryId, q: Option<CategoryId>, nq: nat,
                                     c: Option<CategoryId>, n: nat)
    requires Rooted(cats, c, n) && x in cats
    requires cats'.Keys == cats.Keys && cats'[x].parent == q && Rooted(cats', q, nq)
    requires forall y :: y in cats && y != x ==> cats'[y].parent == cats[y].parent
    ensures Rooted(cats', c, n + nq + 1)
    decreases n
  {
    if c.Some? {
      if c.value == x {
        RootedMono(cats', q, nq, n + nq);
      } else {
        WalkLifted(cats, cats', x, q, nq, cats[c.value].parent, n - 1);
      }
    }
  }

  /**
   * Re-parenting x under q keeps the table acyclic whenever x is not among
   * the ancestors of q: the condition the parent validators check.
   */
  lemma ReparentKeepsAcyclic(cats: Categories, x: CategoryId, q: Option<CategoryId>)
    requires WellFormed(cats) && Acyclic(cats) && x in cats
    requires q.Some? ==> q.value in cats && x !in Ancestors(cats, q)
    ensures WellFormed(cats[x := cats[x].(parent := q)])
    ensures Acyclic(cats[x := cats[x].(parent := q)])
  {
    var cats' := cats[x := cats[x].(parent := q)];
    var nq: nat := 0;
    if q.Some? {
      nq :| Rooted(cats, q, nq);
      AncestorsIsChain(cats, q, nq);
      WalkAvoiding(cats, cats', x, q, nq);
    }
    forall id | id in cats'
      ensures exists n: nat :: Rooted(cats', Some(id), n)
    {
      WalkLifted(cats, cats', x, q, nq, Some(id), |cats|);
    }
    AllRootedIsAcyclic(cats');
  }

  /** Rows that keep their parent keep every walk. */
  lemma {:induction false} WalkSameParents(cats: Categories, cats': Categories, c: Option<CategoryId>, n: nat)
    requires Rooted(cats, c, n)
    requires forall y :: y in cats ==> y in cats' && cats'[y].parent == cats[y].parent
    ensures Rooted(cats', c, n)
    decreases n
  {
    if c.Some? {
      WalkSameParents(cats, cats', cats[c.value].parent, n - 1);
    }
  }

  /** Whether the table is a tree depends only on ids and parents. */
  lemma SameParentsKeepTree(cats: Categories, cats': Categories)
    requires WellFormed(cats) && Acyclic(cats)
    requires cats'.Keys == cats.Keys
    requires forall y :: y in cats ==> cats'[y].id == cats[y].id && cats'[y].parent == cats[y].parent
    ensures WellFormed(cats') && Acyclic(cats')
  {
    forall id | id in cats'
      ensures Rooted(cats', Some(id), |cats'|)
    {
      WalkSameParents(cats, cats', Some(id), |cats|);
    }
  }

  /** Adding a category whose parent already exists keeps the table well formed and acyclic. */
  lemma InsertKeepsAcyclic(cats: Categories, c: Category)
    requires WellFormed(cats) && Acyclic(cats) && c.id !in cats
    requires c.parent.Some? ==> c.parent.value in cats
    ensures WellFormed(cats[c.id := c]) && Acyclic(cats[c.id := c])
  {
    var cats' := cats[c.id := c];
    forall id | id in cats'
      ensures exists n: nat :: Rooted(cats', Some(id), n)
    {
      if id in cats {
        WalkSameParents(cats, cats', Some(id), |cats|);
      } else {
        if c.parent.Some? {
          WalkSameParents(cats, cats', c.parent, |cats|);
        }
        assert Rooted(cats', Some(c.id), |cats| + 1);
      }
    }
    AllRootedIsAcyclic(cats');
  }

  /** The names along a walk, root first. */
  function NamesRootFirst(cats: Categories, chain: seq<CategoryId>): (r: seq<string>)
    requires forall i :: 0 <= i < |chain| ==> chain[i] in cats
    ensures |r| == |chain|
  {
    if chain == [] then [] else NamesRootFirst(cats, chain[1..]) + [cats[chain[0]].name]
  }

  /** What get_full_path returns: the names from the root down to the category, joined by " > ". */
  ghost function FullPathOf(cats: Categories, id: CategoryId): string
    requires id in cats && Acyclic(cats)
  {
    Join(NamesRootFirst(cats, Ancestors(cats, Some(id))), " > ")
  }

  /**
   * Category.get_full_path: walks the parent chain, inserting each name at
   * the front, then joins the names.
   */
  method FullPath(cats: Categories, id: CategoryId) returns (path: string)
    requires id in cats && Acyclic(cats)
    ensures path == FullPathOf(cats, id)
  {
    var names: seq<string> := [];
    var current := Some(id);
    ghost var n: nat :| Rooted(cats, current, n);
    ghost var n0 := n;
    AncestorsIsChain(cats, Some(id), n0);
    while current.Some?
      invariant Rooted(cats, current, n)
      invariant NamesRootFirst(cats, Chain(cats, Some(id), n0)) == NamesRootFirst(cats, Chain(cats, current, n)) + names
      decreases n
    {
      var c := cats[current.value];
      assert Chain(cats, current, n) == [current.value] + Chain(cats, c.parent, n - 1);
      names := [c.name] + names;
      current := c.parent;
      n := n - 1;
    }
    assert Chain(cats, current, n) == [];
    assert names == NamesRootFirst(cats, Ancestors(cats, Some(id)));
    path := Join(names, " > ");
  }

  /** A root's path is its name; a child's path extends its parent's by " > " and its own name. */
  lemma FullPathStep(cats: Categories, id: CategoryId)
    requires id in cats && Acyclic(cats)
    ensures cats[id].parent.None? ==> FullPathOf(cats, id) == cats[id].name
    ensures cats[id].parent.Some? && cats[id].parent.value in cats ==>
      FullPathOf(cats, id) == FullPathOf(cats, cats[id].parent.value) + " > " + cats[id].name
  {
    AncestorsStep(cats, id);
    var up := Ancestors(cats, cats[id].parent);
    assert Ancestors(cats, Some(id))[1..] == up;
    match cats[id].parent
    case None =>
      AncestorsOfRoot(cats);
    case Some(p) =>
      if p in cats {
        assert up == Ancestors(cats, Some(p));
        var ns := NamesRootFirst(cats, up);
        AncestorsStep(cats, p);
        assert |ns| > 0;
        JoinSnoc(ns, cats[id].name, " > ");
      }
  }

  /** The MPTT level derived from the parent map: the number of proper ancestors. */
  ghost function Level(cats: Categories, id: CategoryId): (r: nat)
    requires id in cats && Acyclic(cats)
    ensures r < |cats|
  {
    AncestorsStep(cats, id);
    AncestorsBounded(cats, Some(id));
    |Ancestors(cats, Some(id))| - 1
  }

  lemma LevelStep(cats: Categories, id: CategoryId)
    requires id in cats && Acyclic(cats)
    ensures cats[id].parent.None? ==> Level(cats, id) == 0
    ensures cats[id].parent.Some? && cats[id].parent.value in cats ==>
      Level(cats, id) == Level(cats, cats[id].parent.value) + 1
  {
    AncestorsStep(cats, id);
    if cats[id].parent.None? {
      AncestorsOfRoot(cats);
    } else if cats[id].parent.value in cats {
      AncestorsStep(cats, cats[id].parent.value);
    }
  }

  const Indent := "\U{2014} "

  /** Category.level_name: one "— " per level, then the name. */
  function LevelName(level: nat, name: string): (r: string)
    ensures |r| == 2 * level + |name|
    ensures r[2 * level..] == name
    ensures forall k :: 0 <= k < level ==> r[2 * k..2 * k + 2] == Indent
  {
    LevelNamePrefix(level);
    Repeat(Indent, level) + name
  }

  lemma {:induction false} LevelNamePrefix(level: nat)
    ensures forall k :: 0 <= k < level ==> Repeat(Indent, level)[2 * k..2 * k + 2] == Indent
  {
    if level > 0 {
      LevelNamePrefix(level - 1);
      var r := Repeat(Indent, level);
      assert r == Indent + Repeat(Indent, level - 1);
      forall k | 0 <= k < level
        ensures r[2 * k..2 * k + 2] == Indent
      {
        if k > 0 {
          assert r[2 * k..2 * k + 2] == Repeat(Indent, level - 1)[2 * (k - 1)..2 * (k - 1) + 2];
        }
      }
    }
  }

  /** A child one level deeper than its parent is shown with one more indent. */
  lemma LevelNameOfChild(cats: Categories, id: CategoryId)
    requires id in cats && Acyclic(cats)
    requires cats[id].parent.Some? && cats[id].parent.value in cats
    ensures LevelName(Level(cats, id), cats[id].name)
         == Indent + LevelName(Level(cats, cats[id].parent.value), cats[id].name)
  {
    LevelStep(cats, id);
  }

  /**
   * The slug Category.save stores: an existing slug is kept; an empty one
   * becomes slugify(name), prefixed by the parent's slug and "-" when there
   * is a parent.
   */
  function SavedSlug(cats: Categories, c: Category, slugify: string -> string): (r: string)
    requires c.parent.Some? ==> c.parent.value in cats
    ensures c.slug != "" ==> r == c.slug
    ensures c.slug == "" && c.parent.None? ==> r == slugify(c.name)
    ensures c.slug == "" && c.parent.Some? ==>
      r == cats[c.parent.value].slug + "-" + slugify(c.name)
  {
    if c.slug != "" then c.slug
    else if c.parent.Some? then cats[c.parent.value].slug + "-" + slugify(c.name)
    else slugify(c.name)
  }

  /** Saving twice stores the same slug as saving once. */
  lemma SavedSlugIdempotent(cats: Categories, c: Category, slugify: string -> string)
    requires c.parent.Some? ==> c.parent.value in cats
    ensures SavedSlug(cats, c.(slug := SavedSlug(cats, c, slugify)), slugify) == SavedSlug(cats, c, slugify)
  {
  }

  type VariantId = nat

  /** A product variant, with the price fields the order code reads. */
  datatype Variant = Variant(
    productName: string,
    sku: string,
    size: string,
    stock: nat,             // PositiveIntegerField: never negative
    price: real,
    discountPrice: Option<real>)

  datatype ImageVariant = ImageVariant(productName: string, sku: string, size: string)

  /** A product image; `productName` is None when the image has no product. */
  datatype ProductImage = ProductImage(
    productName: Option<string>,
    variant: Option<ImageVariant>,
    slug: string)

  datatype ImageError = NoProduct

  /**
   * The slug ProductImage.save stores: a non-empty slug is kept; otherwise
   * slugify("{product name}-{sku}-{size}") of the variant, else slugify of the
   * product name; an image with neither fails (attribute access on None).
   */
  function ImageSlug(img: ProductImage, slugify: string -> string): (r: Result<string, ImageError>)
    ensures img.slug != "" ==> r == Ok(img.slug)
    ensures img.slug == "" && img.variant.Some? ==>
      r == Ok(slugify(img.variant.value.productName + "-" + img.variant.value.sku + "-" + img.variant.value.size))
    ensures img.slug == "" && img.variant.None? ==>
      (r.Err? <==> img.productName.None?) && (r.Ok? ==> r.value == slugify(img.productName.value))
  {
    if img.slug != "" then Ok(img.slug)
    else match img.variant
      case Some(v) => Ok(slugify(v.productName + "-" + v.sku + "-" + v.size))
      case None =>
        match img.productName
        case Some(n) => Ok(slugify(n))
        case None => Err(NoProduct)
  }

  /** Saving an image twice stores the same slug as saving it once. */
  lemma ImageSlugIdempotent(img: ProductImage, slugify: string -> string)
    requires ImageSlug(img, slugify).Ok?
    ensures ImageSlug(img.(slug := ImageSlug(img, slugify).value), slugify).Ok?
    ensures ImageSlug(img.(slug := ImageSlug(img, slugify).value), slugify).value == ImageSlug(img, slugify).value
  {
  }
}
