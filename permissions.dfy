/*
 * The two DRF permission classes of backend/accounts/permissions.py.
 * `request.user` is either Django's AnonymousUser, which has no `role`
 * attribute, or an account with a role.
 */
module Permissions {
  import opened Common

  datatype Principal =
    | AnonymousUser
    | Account(id: nat, role: string)

  /** Objects a view may check; a `UserObject` equals an account with the same primary key. */
  datatype Resource =
    | UserObject(id: nat)
    | OtherObject(kind: string, id: nat)

  predicate IsAuthenticated(p: Principal)
  {
    p.Account?
  }

  /** `IsAdminUser.has_permission`; `None` is a request without a user. */
  function IsAdminUserHasPermission(user: Option<Principal>): (granted: bool)
    ensures granted <==> user.Some? && user.value.Account? && user.value.role == "admin"
    ensures user == Some(AnonymousUser) ==> !granted
  {
    match user
    case None => false
    case Some(p) => IsAuthenticated(p) && p.role == "admin"
  }

  /** Reading `role` of the AnonymousUser raises AttributeError. */
  datatype PermissionError = NoRoleAttribute

  /** `IsUserOrAdmin.has_object_permission`. */
  function IsUserOrAdminHasObjectPermission(user: Principal, obj: Resource): (r: Result<bool, PermissionError>)
    ensures user.AnonymousUser? <==> r.Err?
    ensures user.Account? && user.role == "admin" ==> r == Ok(true)
    ensures user.Account? && user.role != "admin" ==> r == Ok(obj == UserObject(user.id))
  {
    match user
    case AnonymousUser => Err(NoRoleAttribute)
    case Account(id, role) =>
      if role == "admin" then Ok(true)
      else Ok(obj.UserObject? && obj.id == id)
  }

  /** A non-admin account is refused every object other than its own user record. */
  lemma {:induction false} NonAdminSeesOnlySelf(id: nat, role: string, obj: Resource)
    requires role != "admin"
    ensures IsUserOrAdminHasObjectPermission(Account(id, role), obj) == Ok(true) <==> obj == UserObject(id)
  {
  }
}
