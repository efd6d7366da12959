/** The custom user model (backend/users/models.py). */
module Users {
  import opened Wrappers

  type UserId = nat

  /** Stored values of the `role` column. The column is a free string: the two
      choices below are not enforced when a row is saved. */
  const RoleUser: string := "USER"
  const RoleCreator: string := "CREATOR"

  /** Column widths of the PostgreSQL schema (varchar(n)). */
  const RoleMaxLength: nat := 10
  const UsernameMaxLength: nat := 150

  /** What the password column holds: the empty default of a freshly inserted
      row, or the unusable marker set by `set_unusable_password`. */
  datatype Password = Blank | Unusable

  datatype User = User(
    id: UserId,
    username: string,
    role: string,
    avatar: Option<string>,   // URLField(blank=True, null=True)
    password: Password)

  /** The row Django inserts for `User(username=...)`: model defaults everywhere. */
  function NewUser(id: UserId, username: string): (u: User)
    ensures u.id == id && u.username == username
    ensures u.role == RoleUser && !IsCreator(u)
    ensures u.avatar == None
  {
    User(id, username, RoleUser, None, Blank)
  }

  /** The `is_creator` property. */
  predicate IsCreator(u: User)
    ensures IsCreator(u) ==> u.role != RoleUser
  {
    u.role == RoleCreator
  }

  /** `__str__`: a user prints as its username. */
  function Display(u: User): (s: string)
    ensures s == u.username
  {
    u.username
  }

  /** Who a request is made by: no user object at all, Django's anonymous user,
      or an authenticated user row. */
  datatype Principal = NoUser | Anonymous | SignedIn(user: User)

  predicate IsAuthenticated(p: Principal)
  {
    p.SignedIn?
  }

  /** `is_creator` and the permission classes agree: both test the role string. */
  lemma CreatorIffRole(u: User)
    ensures IsCreator(u) <==> u.role == RoleCreator
    ensures IsCreator(u) ==> u.role != RoleUser
  {
  }
}
