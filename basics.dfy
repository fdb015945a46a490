/** Option and Result, the two failure-carrying wrappers used throughout the model. */
module Basics {

  datatype Option<+T> = None | Some(value: T)

  datatype Result<+T, +E> = Ok(value: T) | Err(error: E)

  /** The largest of a non-empty finite set of numbers exists. */
  lemma {:induction false} MaxExists(s: set<nat>)
    requires s != {}
    ensures exists m :: m in s && forall x :: x in s ==> x <= m
    decreases s
  {
    var y :| y in s;
    var rest := s - {y};
    assert s == rest + {y};
    if rest != {} {
      MaxExists(rest);
      var m :| m in rest && forall x :: x in rest ==> x <= m;
      if m < y {
        assert y in s && forall x :: x in s ==> x <= y;
      } else {
        assert m in s && forall x :: x in s ==> x <= m;
      }
    } else {
      assert y in s && forall x :: x in s ==> x <= y;
    }
  }
}
