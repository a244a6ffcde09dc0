/** The role-based permission checks: three request-level role predicates and
    one object-level ownership predicate. */
module Permissions {
  import opened Accounts

  /** `request.user`: absent, the anonymous user (not authenticated, no role),
      or a stored account (always authenticated). */
  datatype RequestUser = NoUser | Anonymous | Member(id: UserId, role: Role)

  predicate IsPresent(u: RequestUser) {
    !u.NoUser?
  }

  predicate IsAuthenticated(u: RequestUser) {
    u.Member?
  }

  /** `IsSuperAdmin.has_permission`. */
  predicate IsSuperAdmin(u: RequestUser) {
    IsPresent(u) && IsAuthenticated(u) && u.role == SuperAdmin
  }

  /** `IsCollegeAdmin.has_permission`. */
  predicate IsCollegeAdmin(u: RequestUser) {
    IsPresent(u) && IsAuthenticated(u) && u.role in {CollegeAdmin, SuperAdmin}
  }

  /** `IsSubscriber.has_permission`. */
  predicate IsSubscriber(u: RequestUser) {
    IsPresent(u) && IsAuthenticated(u) && u.role in {Subscriber, CollegeAdmin, SuperAdmin}
  }

  /** The object a view asks about: a user row; a row with a `user` attribute
      naming its owner; or any other object. */
  datatype Target = UserRow(uid: UserId) | OwnedRow(owner: UserId) | OtherRow

  /** `IsOwnerOrAdmin.has_object_permission`. It reads `request.user.role` with
      no authentication guard, so it is only defined for a stored account. */
  predicate IsOwnerOrAdmin(u: RequestUser, obj: Target)
    requires u.Member?
  {
    if u.role in {CollegeAdmin, SuperAdmin} then true
    else (obj.UserRow? && obj.uid == u.id) || (obj.OwnedRow? && obj.owner == u.id)
  }

  /** The capability order: free < subscriber < college_admin < super_admin. */
  function Rank(r: Role): nat {
    match r
    case Free => 0
    case Subscriber => 1
    case CollegeAdmin => 2
    case SuperAdmin => 3
  }

  /** Each role predicate is a threshold on the capability order, gated on authentication. */
  lemma RoleChecksAreThresholds(u: RequestUser)
    ensures IsSuperAdmin(u) <==> u.Member? && Rank(u.role) >= 3
    ensures IsCollegeAdmin(u) <==> u.Member? && Rank(u.role) >= 2
    ensures IsSubscriber(u) <==> u.Member? && Rank(u.role) >= 1
  {
  }

  /** For every requester: IsSuperAdmin implies IsCollegeAdmin implies IsSubscriber. */
  lemma RoleChecksNest(u: RequestUser)
    ensures IsSuperAdmin(u) ==> IsCollegeAdmin(u)
    ensures IsCollegeAdmin(u) ==> IsSubscriber(u)
  {
    RoleChecksAreThresholds(u);
  }

  /** An unauthenticated requester and a free account fail all three role checks. */
  lemma UnauthenticatedOrFreeDenied(u: RequestUser)
    requires !IsAuthenticated(u) || u.role == Free
    ensures !IsSuperAdmin(u) && !IsCollegeAdmin(u) && !IsSubscriber(u)
  {
  }

  /** College and super admins pass the ownership check for every object. */
  lemma AdminsPassOwnership(u: RequestUser, obj: Target)
    requires u.Member? && u.role in {CollegeAdmin, SuperAdmin}
    ensures IsOwnerOrAdmin(u, obj)
  {
  }

  /** Any other account passes exactly for its own user row or for a row it owns;
      an object with no owner that is not the requester is refused. */
  lemma OwnershipForOthers(u: RequestUser, obj: Target)
    requires u.Member? && u.role in {Free, Subscriber}
    ensures IsOwnerOrAdmin(u, obj) <==> obj == UserRow(u.id) || obj == OwnedRow(u.id)
    ensures obj == OtherRow ==> !IsOwnerOrAdmin(u, obj)
  {
  }
}
