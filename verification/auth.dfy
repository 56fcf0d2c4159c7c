/** The login backend over the USERS table: who may log in, how a session's
    user is reloaded, and the attribute test `user_can_authenticate` applies. */
module Auth {
  import opened Basics
  import opened Models

  /** `User.objects.get(...)`: no match, the one match, or more than one
      (`MultipleObjectsReturned`, which no handler catches). */
  datatype Fetched = NotFound | Found(user: TollUser) | Multiple

  /** The users whose username is `name`, in table order. */
  function UsersNamed(users: seq<TollUser>, name: string): (r: seq<TollUser>)
    ensures forall u :: u in r <==> u in users && u.username == name
  {
    if users == [] then []
    else (if users[0].username == name then [users[0]] else []) + UsersNamed(users[1..], name)
  }

  /** The users whose primary key is `id`, in table order. */
  function UsersWithId(users: seq<TollUser>, id: string): (r: seq<TollUser>)
    ensures forall u :: u in r <==> u in users && u.userId == id
  {
    if users == [] then []
    else (if users[0].userId == id then [users[0]] else []) + UsersWithId(users[1..], id)
  }

  function Get(matches: seq<TollUser>): (r: Fetched)
    ensures r.Found? <==> |matches| == 1
    ensures r.Found? ==> r.user == matches[0]
    ensures r.NotFound? <==> matches == []
  {
    if matches == [] then NotFound
    else if |matches| == 1 then Found(matches[0])
    else Multiple
  }

  /** What a login attempt yields: no user, a user, or the uncaught error
      of a username held by several rows. */
  datatype Login = Refused | LoggedIn(user: TollUser) | LookupError

  /** `authenticate`: both credentials given, exactly one user of that
      name, active, with an admitted role and the same password. */
  function Authenticate(users: seq<TollUser>, username: Option<string>, password: Option<string>): (r: Login)
    ensures r.LoggedIn? ==> r.user in users && Some(r.user.username) == username
    ensures r.LoggedIn? ==> r.user.active && r.user.role in AllowedRoles
    ensures r.LoggedIn? ==> password.Some? && CheckPassword(r.user, password.value)
    ensures username.None? || password.None? ==> r == Refused
  {
    if username.None? || password.None? then Refused
    else
      match Get(UsersNamed(users, username.value))
      case NotFound => Refused
      case Multiple => LookupError
      case Found(u) =>
        if !u.active then Refused
        else if u.role !in AllowedRoles then Refused
        else if CheckPassword(u, password.value) then LoggedIn(u)
        else Refused
  }

  /** Both directions: a login succeeds exactly when the name is held by one
      user, who is active, has an admitted role and the given password. */
  lemma AuthenticateIff(users: seq<TollUser>, name: string, password: string)
    ensures var named := UsersNamed(users, name);
      Authenticate(users, Some(name), Some(password)).LoggedIn?
      <==> |named| == 1 && named[0].active && named[0].role in AllowedRoles && named[0].password == password
    ensures Authenticate(users, Some(name), Some(password)) == LookupError
      <==> |UsersNamed(users, name)| > 1
  {
  }

  /** Usernames are unique in the USERS table; then a login never errors. */
  predicate UniqueUsernames(users: seq<TollUser>) {
    forall i, j :: 0 <= i < j < |users| ==> users[i].username != users[j].username
  }

  predicate UniqueIds(users: seq<TollUser>) {
    forall i, j :: 0 <= i < j < |users| ==> users[i].userId != users[j].userId
  }

  lemma {:induction false} UniqueNameMatchesAtMostOne(users: seq<TollUser>, name: string)
    requires UniqueUsernames(users)
    ensures |UsersNamed(users, name)| <= 1
  {
    if users != [] {
      UniqueNameMatchesAtMostOne(users[1..], name);
      if users[0].username == name {
        assert forall u :: u in users[1..] ==> u.username != name by {
          forall u | u in users[1..]
            ensures u.username != name
          {
            var k :| 0 <= k < |users[1..]| && users[1..][k] == u;
            assert users[k + 1] == u;
          }
        }
        var rest := UsersNamed(users[1..], name);
        if rest != [] {
          assert rest[0] in rest;
        }
      }
    }
  }

  lemma {:induction false} UniqueIdMatchesAtMostOne(users: seq<TollUser>, id: string)
    requires UniqueIds(users)
    ensures |UsersWithId(users, id)| <= 1
  {
    if users != [] {
      UniqueIdMatchesAtMostOne(users[1..], id);
      if users[0].userId == id {
        assert forall u :: u in users[1..] ==> u.userId != id by {
          forall u | u in users[1..]
            ensures u.userId != id
          {
            var k :| 0 <= k < |users[1..]| && users[1..][k] == u;
            assert users[k + 1] == u;
          }
        }
        var rest := UsersWithId(users[1..], id);
        if rest != [] {
          assert rest[0] in rest;
        }
      }
    }
  }

  lemma UniqueUsernamesNeverError(users: seq<TollUser>, username: Option<string>, password: Option<string>)
    requires UniqueUsernames(users)
    ensures Authenticate(users, username, password) != LookupError
  {
    if username.Some? {
      UniqueNameMatchesAtMostOne(users, username.value);
    }
  }

  /** `get_user`: the active user with that primary key, if any. The role
      is not consulted, so a user whose role is withdrawn stays logged in. */
  function GetUser(users: seq<TollUser>, id: string): (r: Login)
    ensures r.LoggedIn? ==> r.user in users && r.user.userId == id && r.user.active
    ensures var found := UsersWithId(users, id);
      r.LoggedIn? <==> |found| == 1 && found[0].active
    ensures r.LoggedIn? ==> r.user == UsersWithId(users, id)[0]
    ensures r == LookupError <==> |UsersWithId(users, id)| > 1
  {
    match Get(UsersWithId(users, id))
    case NotFound => Refused
    case Multiple => LookupError
    case Found(u) => if u.active then LoggedIn(u) else Refused
  }

  /** A logged-in user is found again by its key on the next request. */
  lemma LoggedInUserReloads(users: seq<TollUser>, username: Option<string>, password: Option<string>)
    requires UniqueIds(users)
    requires Authenticate(users, username, password).LoggedIn?
    ensures var u := Authenticate(users, username, password).user;
      GetUser(users, u.userId) == LoggedIn(u)
  {
    var u := Authenticate(users, username, password).user;
    UniqueIdMatchesAtMostOne(users, u.userId);
    assert u in UsersWithId(users, u.userId);
  }

  /** The attributes `user_can_authenticate` reads with `getattr`; an absent
      one is `None` here. */
  datatype UserAttrs = UserAttrs(active: Option<bool>, role: Option<string>)

  function AttrsOf(u: TollUser): UserAttrs {
    UserAttrs(Some(u.active), Some(u.role))
  }

  /** `user_can_authenticate`: active, where a missing flag counts as
      active, and a role among the admitted ones. */
  function UserCanAuthenticate(a: UserAttrs): (r: bool)
    ensures a.active == Some(false) ==> !r
    ensures a.active != Some(false) ==> (r <==> a.role.Some? && a.role.value in AllowedRoles)
  {
    a.active.GetOr(true) && a.role.Some? && a.role.value in AllowedRoles
  }

  /** Whoever logs in also passes `user_can_authenticate` and holds the
      module's permissions and every permission. */
  lemma LoggedInUserIsAdmitted(users: seq<TollUser>, username: Option<string>, password: Option<string>, app: string, perm: string)
    requires Authenticate(users, username, password).LoggedIn?
    ensures var u := Authenticate(users, username, password).user;
      UserCanAuthenticate(AttrsOf(u)) && HasModulePerms(u, app) && HasPerm(u, perm)
  {
    var u := Authenticate(users, username, password).user;
    ModulePermsImplyPerms(u, app, perm);
  }

  /** A user that `user_can_authenticate` admits logs in with its own
      password, provided its username is its own. */
  lemma AdmittedUserLogsIn(users: seq<TollUser>, u: TollUser)
    requires UniqueUsernames(users) && u in users
    requires UserCanAuthenticate(AttrsOf(u))
    ensures Authenticate(users, Some(u.username), Some(u.password)) == LoggedIn(u)
  {
    UniqueNameMatchesAtMostOne(users, u.username);
    assert u in UsersNamed(users, u.username);
  }
}
