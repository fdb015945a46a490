/**
 * The write side of the category serializer: the sibling-unique slug
 * generator, the walk that detects a parent cycle, the parent validator
 * and the slug rules applied to the validated data on create and update.
 */
module ProductSerializers {
  import opened Basics
  import opened Text
  import opened ProductModels

  /** Slugs in use among the children of `parent`, or among the roots when it is None. */
  function SiblingSlugs(cats: Categories, parent: Option<CategoryId>): set<string>
  {
    set id | id in cats && cats[id].parent == parent :: cats[id].slug
  }

  /** The k-th slug the generator tries: the base itself, then base-1, base-2, ... */
  function Candidate(base: string, k: nat): string
  {
    if k == 0 then base else base + "-" + NatToString(k)
  }

  lemma CandidateInjective(base: string, j: nat, k: nat)
    requires j != k
    ensures Candidate(base, j) != Candidate(base, k)
  {
    if j > 0 && k > 0 {
      NatToStringInjective(j, k);
      assert Candidate(base, j)[|base| + 1..] == NatToString(j);
      assert Candidate(base, k)[|base| + 1..] == NatToString(k);
    }
  }

  /** `s` is the first candidate for `base` that is not in `taken`. */
  ghost predicate FirstFree(taken: set<string>, base: string, s: string)
  {
    exists k: nat :: s == Candidate(base, k) && s !in taken &&
      forall j: nat :: j < k ==> Candidate(base, j) in taken
  }

  /** There is only one first free candidate. */
  lemma FirstFreeUnique(taken: set<string>, base: string, s: string, t: string)
    requires FirstFree(taken, base, s) && FirstFree(taken, base, t)
    ensures s == t
  {
    var i: nat :| s == Candidate(base, i) && s !in taken &&
      forall j: nat :: j < i ==> Candidate(base, j) in taken;
    var k: nat :| t == Candidate(base, k) && t !in taken &&
      forall j: nat :: j < k ==> Candidate(base, j) in taken;
    if i != k {
      assert false;
    }
  }

  /**
   * The slug generator: slugify the name, then try the base and base-k for
   * k = 1, 2, ... until no sibling (no root, for a parentless category) uses it.
   */
  method GenerateUniqueSlug(cats: Categories, name: string, parent: Option<CategoryId>, slugify: string -> string)
    returns (slug: string)
    ensures slug !in SiblingSlugs(cats, parent)
    ensures slugify(name) !in SiblingSlugs(cats, parent) ==> slug == slugify(name)
    ensures FirstFree(SiblingSlugs(cats, parent), slugify(name), slug)
  {
    var base := slugify(name);
    var taken := SiblingSlugs(cats, parent);
    slug := base;
    var counter: nat := 1;
    ghost var tried: set<string> := {};
    while true
      invariant counter >= 1
      invariant slug == Candidate(base, counter - 1)
      invariant tried <= taken
      invariant forall j: nat :: j < counter - 1 ==> Candidate(base, j) in tried
      invariant forall t :: t in tried ==> exists j: nat :: j < counter - 1 && t == Candidate(base, j)
      decreases taken - tried
    {
      var found := slug in taken;
      if !found {
        break;
      }
      forall t | t in tried
        ensures t != slug
      {
        var j: nat :| j < counter - 1 && t == Candidate(base, j);
        CandidateInjective(base, j, counter - 1);
      }
      tried := tried + {slug};
      slug := base + "-" + NatToString(counter);
      counter := counter + 1;
    }
    assert slug == Candidate(base, counter - 1) && slug !in taken &&
      forall j: nat :: j < counter - 1 ==> Candidate(base, j) in taken;
  }

  /**
   * Walks new_parent, its parent, ... and reports whether the walk meets
   * the instance; the walk ends because the existing tree is acyclic.
   */
  method CreatesCircularReference(cats: Categories, instance: CategoryId, newParent: CategoryId)
    returns (r: bool)
    requires Acyclic(cats) && newParent in cats
    ensures r <==> instance in Ancestors(cats, Some(newParent))
  {
    var current := Some(newParent);
    ghost var n: nat := |cats|;
    AncestorsIsChain(cats, current, n);
    ghost var walked: seq<CategoryId> := [];
    while current.Some?
      invariant Rooted(cats, current, n)
      invariant Ancestors(cats, Some(newParent)) == walked + Chain(cats, current, n)
      invariant instance !in walked
      decreases n
    {
      if current.value == instance {
        return true;
      }
      walked := walked + [current.value];
      current := cats[current.value].parent;
      n := n - 1;
    }
    return false;
  }

  datatype ParentError = SelfParent | Circular

  /**
   * The serializer's parent validator: on update (an instance exists) with
   * a parent given, the instance itself and any parent whose ancestor walk
   * meets the instance are refused; otherwise the value passes unchanged.
   */
  method ValidateParent(cats: Categories, instance: Option<CategoryId>, value: Option<CategoryId>)
    returns (r: Result<Option<CategoryId>, ParentError>)
    requires Acyclic(cats) && (value.Some? ==> value.value in cats)
    ensures instance.None? || value.None? ==> r == Ok(value)
    ensures instance.Some? && value.Some? ==>
      (r == Err(SelfParent) <==> instance.value == value.value) &&
      (r == Err(Circular) <==> instance.value != value.value && instance.value in Ancestors(cats, value)) &&
      (r == Ok(value) <==> instance.value !in Ancestors(cats, value))
  {
    if instance.Some? && value.Some? {
      AncestorsStep(cats, value.value);
      if instance.value == value.value {
        return Err(SelfParent);
      }
      var circular := CreatesCircularReference(cats, instance.value, value.value);
      if circular {
        return Err(Circular);
      }
    }
    return Ok(value);
  }

  /** A key of the validated data: absent, or given with a value. */
  datatype Field<T> = Absent | Given(value: T)

  function GetOr<T>(f: Field<T>, otherwise: T): T
  {
    if f.Given? then f.value else otherwise
  }

  /**
   * The writable fields of the category serializer that the handlers read or
   * write, as the request sends them; the parent is named by its id.
   */
  datatype CategoryData = CategoryData(
    name: Field<string>,
    slug: Field<string>,
    parent: Field<Option<CategoryId>>,
    displayOrder: Field<int>)

  // ---------------------------------------------------------------------
  // Field validation (is_valid): the checks the model fields give the
  // serializer's fields, and the parent validator.

  /** One failed field check; the 400 answer lists all of them. */
  datatype FieldError =
    | NameRequired | NameBlank | NameTooLong
    | SlugBlank | SlugTooLong | SlugNotSlug | SlugNotUnique
    | ParentNotFound | BadParent(reason: ParentError)
    | DisplayOrderOutOfRange

  const NameMaxLength: nat := 100
  const SlugMaxLength: nat := 150
  /** The upper bound of a PositiveIntegerField. */
  const DisplayOrderMax: int := 2147483647

  /** A character of a slug: an ASCII letter or digit, '-' or '_'. */
  predicate IsSlugChar(c: char)
  {
    'a' <= c <= 'z' || 'A' <= c <= 'Z' || '0' <= c <= '9' || c == '-' || c == '_'
  }

  predicate IsSlug(s: string)
  {
    |s| > 0 && forall i :: 0 <= i < |s| ==> IsSlugChar(s[i])
  }

  /** Some row other than `except` has this slug. */
  predicate SlugInUse(cats: Categories, except: Option<CategoryId>, slug: string)
  {
    exists other :: other in cats && Some(other) != except && cats[other].slug == slug
  }

  /** A name when one is required, neither blank nor longer than max_length. */
  predicate NameOk(name: Field<string>, required: bool)
  {
    (required ==> name.Given?) && (name.Given? ==> 0 < |name.value| <= NameMaxLength)
  }

  /** A slug of slug characters, no longer than max_length, that no other row has. */
  predicate SlugOk(cats: Categories, instance: Option<CategoryId>, slug: Field<string>)
  {
    slug.Given? ==> IsSlug(slug.value) && |slug.value| <= SlugMaxLength && !SlugInUse(cats, instance, slug.value)
  }

  /** A parent that exists and, on update, lies outside the instance's subtree. */
  ghost predicate ParentOk(cats: Categories, instance: Option<CategoryId>, parent: Field<Option<CategoryId>>)
    requires WellFormed(cats) && Acyclic(cats)
  {
    parent.Given? && parent.value.Some? ==>
      parent.value.value in cats && (instance.Some? ==> instance.value !in Ancestors(cats, parent.value))
  }

  predicate DisplayOrderOk(displayOrder: Field<int>)
  {
    displayOrder.Given? ==> 0 <= displayOrder.value <= DisplayOrderMax
  }

  /** The data pass every field check. */
  ghost predicate ValidData(cats: Categories, instance: Option<CategoryId>, data: CategoryData, required: bool)
    requires WellFormed(cats) && Acyclic(cats)
  {
    NameOk(data.name, required) && SlugOk(cats, instance, data.slug) &&
    ParentOk(cats, instance, data.parent) && DisplayOrderOk(data.displayOrder)
  }

  /**
   * The errors of the name field: required when `required` (a create or a
   * full update), then blank, then longer than its max_length.
   */
  function NameRefusals(name: Field<string>, required: bool): set<FieldError>
  {
    if name.Absent? then (if required then {NameRequired} else {})
    else if name.value == "" then {NameBlank}
    else if |name.value| > NameMaxLength then {NameTooLong}
    else {}
  }

  /**
   * The errors of the slug field: blank stops the field; otherwise its
   * validators all run (max_length, the slug pattern, the unique column
   * with the instance itself excluded).
   */
  function SlugRefusals(cats: Categories, instance: Option<CategoryId>, slug: Field<string>): set<FieldError>
  {
    if slug.Absent? then {}
    else if slug.value == "" then {SlugBlank}
    else
      (if |slug.value| > SlugMaxLength then {SlugTooLong} else {}) +
      (if IsSlug(slug.value) then {} else {SlugNotSlug}) +
      (if SlugInUse(cats, instance, slug.value) then {SlugNotUnique} else {})
  }

  /** The errors of the parent field: an unknown parent, or one the parent validator refuses. */
  ghost function ParentRefusals(cats: Categories, instance: Option<CategoryId>, parent: Field<Option<CategoryId>>): set<FieldError>
    requires WellFormed(cats) && Acyclic(cats)
  {
    if parent.Absent? || parent.value.None? then {}
    else if parent.value.value !in cats then {ParentNotFound}
    else if instance.Some? && instance.value == parent.value.value then {BadParent(SelfParent)}
    else if instance.Some? && instance.value in Ancestors(cats, parent.value) then {BadParent(Circular)}
    else {}
  }

  function DisplayOrderRefusals(displayOrder: Field<int>): set<FieldError>
  {
    if displayOrder.Given? && !(0 <= displayOrder.value <= DisplayOrderMax) then {DisplayOrderOutOfRange} else {}
  }

  /** Every error is_valid reports for the data, field by field. */
  ghost function Refusals(cats: Categories, instance: Option<CategoryId>, data: CategoryData, required: bool): set<FieldError>
    requires WellFormed(cats) && Acyclic(cats)
  {
    NameRefusals(data.name, required) + SlugRefusals(cats, instance, data.slug) +
    ParentRefusals(cats, instance, data.parent) + DisplayOrderRefusals(data.displayOrder)
  }

  lemma SlugRefusalsEmpty(cats: Categories, instance: Option<CategoryId>, slug: Field<string>)
    ensures SlugRefusals(cats, instance, slug) == {} <==> SlugOk(cats, instance, slug)
  {
    if slug.Given? && slug.value != "" && !IsSlug(slug.value) {
      assert SlugNotSlug in SlugRefusals(cats, instance, slug);
    }
  }

  lemma ParentRefusalsEmpty(cats: Categories, instance: Option<CategoryId>, parent: Field<Option<CategoryId>>)
    requires WellFormed(cats) && Acyclic(cats)
    ensures ParentRefusals(cats, instance, parent) == {} <==> ParentOk(cats, instance, parent)
  {
    if parent.Given? && parent.value.Some? && parent.value.value in cats {
      AncestorsStep(cats, parent.value.value);
    }
  }

  /** The data pass exactly when no field reports an error. */
  lemma RefusalsEmpty(cats: Categories, instance: Option<CategoryId>, data: CategoryData, required: bool)
    requires WellFormed(cats) && Acyclic(cats)
    ensures Refusals(cats, instance, data, required) == {} <==> ValidData(cats, instance, data, required)
  {
    var a := NameRefusals(data.name, required);
    var b := SlugRefusals(cats, instance, data.slug);
    var c := ParentRefusals(cats, instance, data.parent);
    var d := DisplayOrderRefusals(data.displayOrder);
    assert a == {} <==> NameOk(data.name, required);
    SlugRefusalsEmpty(cats, instance, data.slug);
    ParentRefusalsEmpty(cats, instance, data.parent);
    assert d == {} <==> DisplayOrderOk(data.displayOrder);
    assert Refusals(cats, instance, data, required) == a + b + c + d;
    UnionEmpty(a, b, c, d);
  }

  lemma UnionEmpty<T>(a: set<T>, b: set<T>, c: set<T>, d: set<T>)
    ensures a + b + c + d == {} <==> a == {} && b == {} && c == {} && d == {}
  {
    if a != {} { var x :| x in a; assert x in a + b + c + d; }
    if b != {} { var x :| x in b; assert x in a + b + c + d; }
    if c != {} { var x :| x in c; assert x in a + b + c + d; }
    if d != {} { var x :| x in d; assert x in a + b + c + d; }
  }

  /**
   * The serializer's is_valid on the fields modelled: each field's checks,
   * with the parent validator run on a parent that exists; the data pass
   * unchanged, or every error is reported.
   */
  method IsValid(cats: Categories, instance: Option<CategoryId>, data: CategoryData, required: bool)
    returns (r: Result<CategoryData, set<FieldError>>)
    requires WellFormed(cats) && Acyclic(cats)
    ensures r.Ok? <==> ValidData(cats, instance, data, required)
    ensures r.Ok? ==> r.value == data
    ensures r.Err? ==> r.error == Refusals(cats, instance, data, required) && r.error != {}
  {
    var errors := NameRefusals(data.name, required) + SlugRefusals(cats, instance, data.slug);
    if data.parent.Given? && data.parent.value.Some? {
      if data.parent.value.value !in cats {
        errors := errors + {ParentNotFound};
      } else {
        var checked := ValidateParent(cats, instance, data.parent.value);
        if checked.Err? {
          errors := errors + {BadParent(checked.error)};
        }
      }
    }
    errors := errors + DisplayOrderRefusals(data.displayOrder);
    RefusalsEmpty(cats, instance, data, required);
    if errors == {} {
      r := Ok(data);
    } else {
      r := Err(errors);
    }
  }

  /**
   * create: a slug that is absent or empty is replaced by a generated one
   * among the siblings under the given parent (the roots when none).
   */
  method SlugOnCreate(cats: Categories, data: CategoryData, slugify: string -> string)
    returns (out: CategoryData)
    requires data.name.Given?
    ensures data.slug.Given? && data.slug.value != "" ==> out == data
    ensures !(data.slug.Given? && data.slug.value != "") ==>
      out == data.(slug := out.slug) && out.slug.Given? &&
      FirstFree(SiblingSlugs(cats, GetOr(data.parent, None)), slugify(data.name.value), out.slug.value)
  {
    out := data;
    if data.slug.Absent? || data.slug.value == "" {
      var slug := GenerateUniqueSlug(cats, data.name.value, GetOr(data.parent, None), slugify);
      out := data.(slug := Given(slug));
    }
  }

  /**
   * update: a name given without a slug regenerates the slug among the
   * siblings under the given parent, or else the instance's current parent.
   */
  method SlugOnUpdate(cats: Categories, instance: Category, data: CategoryData, slugify: string -> string)
    returns (out: CategoryData)
    ensures !(data.name.Given? && data.slug.Absent?) ==> out == data
    ensures data.name.Given? && data.slug.Absent? ==>
      out == data.(slug := out.slug) && out.slug.Given? &&
      FirstFree(SiblingSlugs(cats, GetOr(data.parent, instance.parent)), slugify(data.name.value), out.slug.value)
  {
    out := data;
    if data.name.Given? && data.slug.Absent? {
      var slug := GenerateUniqueSlug(cats, data.name.value, GetOr(data.parent, instance.parent), slugify);
      out := data.(slug := Given(slug));
    }
  }
}
