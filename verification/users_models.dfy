/** The custom user account: its fields, the defaults of its permission and
    role flags, its string form, its permission checks, and the uniqueness
    of username, e-mail and phone number across all accounts. */
module UserModels {
  import opened Common

  /** A user's primary key: a UUID, kept as its canonical text. */
  type UserId = string

  /** A user account. `password` holds the raw value handed to the password
      setter; hashing is not modelled. Dates are instants in microseconds. */
  datatype User = User(
    id: UserId,
    firstName: string,
    lastName: string,
    username: string,
    phoneNumber: Option<string>,
    email: string,
    birthDate: Option<int>,
    password: Option<string>,
    isAdmin: bool,
    isActive: bool,
    isStaff: bool,
    isSuperuser: bool,
    isTeacher: bool,
    isEmployee: bool,
    isStudent: bool)

  /** The profile fields a person supplies; everything else takes a default. */
  datatype Profile = Profile(
    firstName: string,
    lastName: string,
    username: string,
    phoneNumber: Option<string>,
    email: string,
    birthDate: Option<int>)

  /** The account table, keyed by primary key. */
  type Users = map<UserId, User>

  /** A new account built from a profile: active, with every permission and
      role flag off and no password yet. */
  function NewUser(id: UserId, p: Profile): (u: User)
    ensures u.id == id && u.username == p.username && u.email == p.email
    ensures u.firstName == p.firstName && u.lastName == p.lastName
    ensures u.phoneNumber == p.phoneNumber && u.birthDate == p.birthDate
    ensures u.isActive && u.password.None?
    ensures !u.isAdmin && !u.isStaff && !u.isSuperuser
    ensures !u.isTeacher && !u.isEmployee && !u.isStudent
  {
    User(id, p.firstName, p.lastName, p.username, p.phoneNumber, p.email, p.birthDate,
         None, false, true, false, false, false, false, false)
  }

  /** The string form of an account. */
  function Display(u: User): string
  {
    u.username
  }

  /** Whether the account holds permission `perm` (on `obj`, if given).
      Neither argument is consulted. */
  predicate HasPerm<P, O>(u: User, perm: P, obj: Option<O>)
  {
    u.isAdmin || u.isSuperuser
  }

  /** Whether the account may see the application `appLabel` in the admin. */
  predicate HasModulePerms(u: User, appLabel: string)
  {
    true
  }

  /** The permission answer depends on the account alone: any two questions
      asked of the same account get the same answer, and it is yes exactly
      for administrators and superusers. */
  lemma PermissionIgnoresQuestion<P, O>(u: User, perm1: P, obj1: Option<O>, perm2: P, obj2: Option<O>)
    ensures HasPerm(u, perm1, obj1) == HasPerm(u, perm2, obj2)
    ensures HasPerm(u, perm1, obj1) <==> u.isAdmin || u.isSuperuser
  {
  }

  /** Every account sees every application in the admin. */
  lemma ModulePermsAlwaysGranted(u: User, appLabel: string)
    ensures HasModulePerms(u, appLabel)
  {
  }

  /** A fresh account has no permission at all, whatever is asked. */
  lemma FreshUserHasNoPerm<P, O>(id: UserId, p: Profile, perm: P, obj: Option<O>)
    ensures !HasPerm(NewUser(id, p), perm, obj)
    ensures Display(NewUser(id, p)) == p.username
  {
  }

  /** Two phone numbers clash only when both are present and equal: a missing
      phone number (SQL NULL) never violates uniqueness. */
  predicate PhoneClash(a: Option<string>, b: Option<string>)
  {
    a.Some? && b.Some? && a.value == b.value
  }

  /** The account table is keyed by primary key, and username, e-mail and
      (present) phone number are each unique across accounts. */
  ghost predicate ValidUsers(users: Users)
  {
    && (forall k :: k in users ==> users[k].id == k)
    && (forall a, b :: a in users && b in users && a != b ==>
          && users[a].username != users[b].username
          && users[a].email != users[b].email
          && !PhoneClash(users[a].phoneNumber, users[b].phoneNumber))
  }

  /** Usernames are unique, so an account's string form identifies it. */
  lemma DisplayIdentifiesUser(users: Users, a: UserId, b: UserId)
    requires ValidUsers(users) && a in users && b in users
    requires Display(users[a]) == Display(users[b])
    ensures a == b
  {
  }

  /** No account other than `except` uses this username, e-mail or phone. */
  ghost predicate FreeFor(users: Users, except: Option<UserId>, username: string, email: string, phone: Option<string>)
  {
    forall k :: k in users && Some(k) != except ==>
      && users[k].username != username
      && users[k].email != email
      && !PhoneClash(users[k].phoneNumber, phone)
  }
}
