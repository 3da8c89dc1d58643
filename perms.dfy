/** The permission classes: authenticated-and-role checks and the
    comment-owner check, as predicates over the requesting principal. */
module Perms {
  import opened UserModels

  /** `request.user`: the anonymous user, or an authenticated account with its role. */
  datatype Principal = Anonymous | Authenticated(id: UserId, role: Role)

  /** `permissions.IsAuthenticated`. */
  predicate IsAuthenticated(p: Principal)
  {
    p.Authenticated?
  }

  /** `IsA.has_permission` for the class whose `role` attribute is `role`. */
  predicate IsA(p: Principal, role: Role)
  {
    IsAuthenticated(p) && p.role == role
  }

  predicate IsAdmin(p: Principal) { IsA(p, Administrator) }
  predicate IsManager(p: Principal) { IsA(p, Manager) }
  predicate IsSpecialist(p: Principal) { IsA(p, Specialist) }
  predicate IsStudent(p: Principal) { IsA(p, Student) }

  /** `OwnerComment.has_object_permission` on a comment written by `author`. */
  predicate OwnerComment(p: Principal, author: UserId)
  {
    IsAuthenticated(p) && p.id == author
  }

  /** The role classes partition the authenticated users: exactly one holds. */
  lemma ExactlyOneRoleClass(p: Principal)
    requires IsAuthenticated(p)
    ensures (if IsAdmin(p) then 1 else 0) + (if IsManager(p) then 1 else 0)
          + (if IsSpecialist(p) then 1 else 0) + (if IsStudent(p) then 1 else 0) == 1
  {
  }

  /** Nothing is granted to the anonymous user. */
  lemma AnonymousDenied(role: Role, author: UserId)
    ensures !IsA(Anonymous, role) && !OwnerComment(Anonymous, author)
  {
  }
}
