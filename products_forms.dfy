/**
 * The admin form's parent check for a category. The ancestor query of the
 * tree library becomes the bounded walk over the parent map, which under
 * an acyclic table lists exactly the ancestors.
 */
module ProductForms {
  import opened Basics
  import opened ProductModels
  import ProductSerializers

  /**
   * clean_parent: with a saved instance (it has a pk) and a parent chosen,
   * the instance itself and any parent whose ancestors (itself included)
   * contain the instance are refused; otherwise the parent is kept.
   */
  function CleanParent(cats: Categories, instancePk: Option<CategoryId>, parent: Option<CategoryId>)
    : (r: Result<Option<CategoryId>, ProductSerializers.ParentError>)
    requires Acyclic(cats) && (parent.Some? ==> parent.value in cats)
    ensures instancePk.None? || parent.None? ==> r == Ok(parent)
    ensures instancePk.Some? && parent.Some? ==>
      (r == Err(ProductSerializers.SelfParent) <==> instancePk.value == parent.value) &&
      (r == Err(ProductSerializers.Circular) <==>
        instancePk.value != parent.value && instancePk.value in Ancestors(cats, parent)) &&
      (r == Ok(parent) <==> instancePk.value !in Ancestors(cats, parent))
  {
    AncestorsBounded(cats, parent);
    if instancePk.Some? && parent.Some? then
      if instancePk.value == parent.value then Err(ProductSerializers.SelfParent)
      else if instancePk.value in Chain(cats, parent, |cats|) then Err(ProductSerializers.Circular)
      else Ok(parent)
    else
      Ok(parent)
  }

  /** Whatever the form accepts for a saved category keeps the tree well formed and acyclic. */
  lemma CleanParentKeepsTree(cats: Categories, x: CategoryId, parent: Option<CategoryId>)
    requires WellFormed(cats) && Acyclic(cats) && x in cats
    requires parent.Some? ==> parent.value in cats
    requires CleanParent(cats, Some(x), parent).Ok?
    ensures WellFormed(cats[x := cats[x].(parent := parent)])
    ensures Acyclic(cats[x := cats[x].(parent := parent)])
  {
    ReparentKeepsAcyclic(cats, x, parent);
  }
}
