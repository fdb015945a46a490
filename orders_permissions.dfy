/** The order app's permission class: read-only for everyone, writes for staff. */
module OrderPermissions {
  import opened Basics
  import opened OrderModels

  /** GET, HEAD and OPTIONS, the methods that do not change anything. */
  const SafeMethods: set<string> := {"GET", "HEAD", "OPTIONS"}

  /**
   * has_permission. The request's user is absent (None) or a user record;
   * an anonymous visitor is a user whose staff flag is false.
   */
  function HasPermission(verb: string, user: Option<User>): (r: bool)
    ensures verb in SafeMethods ==> r
    ensures verb !in SafeMethods ==> (r <==> user.Some? && user.value.isStaff)
  {
    if verb in SafeMethods then true
    else user.Some? && user.value.isStaff
  }

  /** The staff flag, with an absent user counted as not staff. */
  function IsStaff(user: Option<User>): bool
  {
    user.Some? && user.value.isStaff
  }

  /** Two requests with the same method and the same staff standing get the same answer. */
  lemma PermissionDependsOnStaffOnly(verb: string, u1: Option<User>, u2: Option<User>)
    requires IsStaff(u1) == IsStaff(u2)
    ensures HasPermission(verb, u1) == HasPermission(verb, u2)
  {
  }

  /** Staff may do everything a visitor may, and more. */
  lemma StaffMayDoMore(verb: string, visitor: Option<User>, staff: User)
    requires staff.isStaff
    ensures HasPermission(verb, visitor) ==> HasPermission(verb, Some(staff))
    ensures !HasPermission("POST", None) && HasPermission("POST", Some(staff))
  {
  }
}
