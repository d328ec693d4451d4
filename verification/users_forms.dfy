/** The sign-up form (password confirmation and saving the new account) and
    the profile-update form, whose editable fields exclude the username. */
module UserForms {
  import opened Common
  import opened UserModels

  /** The message of the password-confirmation error. */
  const PasswordMismatch: string := "Passwords don't match"

  /** Confirms the second password against the first. Each argument is the
      field's cleaned value, absent when that field failed its own checks. */
  function CleanPassword2(password1: Option<string>, password2: Option<string>): (r: Cleaned<Option<string>, string>)
    ensures r.Invalid? <==> Truthy(password1) && Truthy(password2) && password1.value != password2.value
    ensures r.Invalid? ==> r.error == PasswordMismatch
    ensures r.Valid? ==> r.value == password2
  {
    if Truthy(password1) && Truthy(password2) && password1.value != password2.value
    then Invalid(PasswordMismatch)
    else Valid(password2)
  }

  /** When either password is missing or empty, confirmation never fails. */
  lemma EmptyPasswordNeverMismatches(password1: Option<string>, password2: Option<string>)
    requires !Truthy(password1) || !Truthy(password2)
    ensures CleanPassword2(password1, password2) == Valid(password2)
  {
  }

  /** A validated sign-up: the profile fields and the two password entries. */
  datatype Signup = Signup(profile: Profile, password1: string, password2: string)

  /** The account built by a sign-up form, and the account table after it. */
  datatype SavedUser = SavedUser(users: Users, user: User)

  /** Saves a validated sign-up. `id` is the freshly drawn UUID. The stored
      password comes from the first entry; without `commit` nothing is
      persisted. */
  function SaveSignup(users: Users, id: UserId, form: Signup, commit: bool): (r: SavedUser)
    requires id !in users
    requires FreeFor(users, None, form.profile.username, form.profile.email, form.profile.phoneNumber)
    ensures r.user == NewUser(id, form.profile).(password := Some(form.password1))
    ensures r.user.id == id && r.user.password == Some(form.password1)
    ensures r.user.username == form.profile.username && r.user.email == form.profile.email
    ensures !r.user.isAdmin && !r.user.isSuperuser && r.user.isActive
    ensures commit ==> r.users.Keys == users.Keys + {id} && r.users[id] == r.user
    ensures commit ==> forall k :: k in users ==> r.users[k] == users[k]
    ensures !commit ==> r.users == users
    ensures ValidUsers(users) ==> ValidUsers(r.users)
  {
    var user := NewUser(id, form.profile).(password := Some(form.password1));
    if commit then
      AddKeepsUsersValid(users, user);
      SavedUser(users[user.id := user], user)
    else SavedUser(users, user)
  }

  /** Storing a new account whose username, e-mail and phone are free keeps
      every account's identifying fields unique. */
  lemma AddKeepsUsersValid(users: Users, user: User)
    requires user.id !in users
    requires FreeFor(users, None, user.username, user.email, user.phoneNumber)
    ensures ValidUsers(users) ==> ValidUsers(users[user.id := user])
  {
  }

  /** The editable profile fields; the username is not among them. */
  datatype ProfileUpdate = ProfileUpdate(
    firstName: string,
    lastName: string,
    phoneNumber: Option<string>,
    email: string,
    birthDate: Option<int>)

  /** Applies a profile update to one account. */
  function UpdateProfile(u: User, f: ProfileUpdate): (r: User)
    ensures r.firstName == f.firstName && r.lastName == f.lastName
    ensures r.phoneNumber == f.phoneNumber && r.email == f.email && r.birthDate == f.birthDate
    ensures r.id == u.id && r.username == u.username && r.password == u.password
    ensures r.isAdmin == u.isAdmin && r.isSuperuser == u.isSuperuser && r.isStaff == u.isStaff
    ensures r.isActive == u.isActive
    ensures r.isTeacher == u.isTeacher && r.isEmployee == u.isEmployee && r.isStudent == u.isStudent
  {
    u.(firstName := f.firstName, lastName := f.lastName, phoneNumber := f.phoneNumber,
       email := f.email, birthDate := f.birthDate)
  }

  /** Saves a validated profile update into the account table; the new e-mail
      and phone number must be free among the other accounts. */
  function SaveProfile(users: Users, id: UserId, f: ProfileUpdate): (r: Users)
    requires id in users
    requires FreeFor(users, Some(id), users[id].username, f.email, f.phoneNumber)
    ensures r.Keys == users.Keys
    ensures r[id] == UpdateProfile(users[id], f) && r[id].username == users[id].username
    ensures forall k :: k in users && k != id ==> r[k] == users[k]
    ensures ValidUsers(users) ==> ValidUsers(r)
  {
    users[id := UpdateProfile(users[id], f)]
  }
}
