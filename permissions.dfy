/** The two permission classes of backend/users/permissions.py. */
module Permissions {
  import opened Users
  import opened MarketplaceModels

  /** DRF's SAFE_METHODS. */
  const SafeMethods: set<string> := {"GET", "HEAD", "OPTIONS"}

  /** `IsCreator.has_permission`: a user is present, authenticated and has
      role CREATOR. The view is not consulted. */
  predicate IsCreatorGrants(p: Principal)
    ensures IsCreatorGrants(p) ==> IsAuthenticated(p)
  {
    p.SignedIn? && p.user.role == RoleCreator
  }

  /** `IsCreatorOrReadOnly.has_permission`: every safe method passes;
      any other method needs an authenticated CREATOR. */
  predicate IsCreatorOrReadOnlyGrants(httpMethod: string, p: Principal)
    ensures IsCreatorOrReadOnlyGrants(httpMethod, p) ==> httpMethod in SafeMethods || IsAuthenticated(p)
  {
    httpMethod in SafeMethods || IsCreatorGrants(p)
  }

  /** DRF's `IsAuthenticated`. */
  predicate IsAuthenticatedGrants(p: Principal)
  {
    IsAuthenticated(p)
  }

  /** The exact grant condition of `IsCreator`, spelled in terms of the user model. */
  lemma IsCreatorExactly(p: Principal)
    ensures IsCreatorGrants(p) <==> IsAuthenticated(p) && IsCreator(p.user)
    ensures p == NoUser || p == Anonymous ==> !IsCreatorGrants(p)
  {
  }

  /** Safe methods are granted to everyone, anonymous callers included. */
  lemma SafeMethodsAlwaysGranted(httpMethod: string, p: Principal)
    requires httpMethod in SafeMethods
    ensures IsCreatorOrReadOnlyGrants(httpMethod, p)
  {
  }

  /** For a writing method the grant is exactly an authenticated CREATOR. */
  lemma WritesNeedCreator(httpMethod: string, p: Principal)
    requires httpMethod !in SafeMethods
    ensures IsCreatorOrReadOnlyGrants(httpMethod, p) <==> p.SignedIn? && p.user.role == RoleCreator
  {
  }

  /** `IsCreator` is the stronger of the two: whenever it grants, so does
      `IsCreatorOrReadOnly`, whatever the method. */
  lemma IsCreatorImpliesReadOnlyVariant(httpMethod: string, p: Principal)
    requires IsCreatorGrants(p)
    ensures IsCreatorOrReadOnlyGrants(httpMethod, p)
  {
  }

  /** `has_object_permission`: neither class overrides it, so both inherit
      DRF's `BasePermission` version, which grants every object. */
  predicate ObjectPermissionGrants(httpMethod: string, p: Principal, s: Session)
  {
    true
  }

  /** No ownership check: a creator passes both the view-level and the
      object-level check for a write to a session another user created. */
  lemma AnyCreatorMayWrite(httpMethod: string, u: User, s: Session)
    requires u.role == RoleCreator && s.creator != u.id
    ensures IsCreatorOrReadOnlyGrants(httpMethod, SignedIn(u))
    ensures ObjectPermissionGrants(httpMethod, SignedIn(u), s)
  {
  }
}
