/** The account endpoints: sign-up, login, the current user, password
    change, and the admin user list, search and (de)activation. Every state
    change is the user service's; each endpoint is a function from the
    `users` table (and its inputs) to its answer and the new table. The
    activity log is not modelled: `log_activity` catches every exception of
    its own, so it never changes an endpoint's answer. */
module AuthRouter {
  import opened Wrappers
  import opened Text
  import opened Schema
  import opened Paging
  import opened Rows
  import opened UserService
  import opened AuthHandler

  const SignupFailed := HttpError(500, "Failed to create user account")
  const BadLogin := HttpError(401, "Invalid username/email or password")
  const LoginFailed := HttpError(500, "Login failed")
  const MeFailed := HttpError(500, "Failed to retrieve user information")
  const MeUpdateFailed := HttpError(500, "Failed to update user information")
  const PasswordChangeFailed := HttpError(500, "Failed to change password")
  const ShortSearchTerm := HttpError(400, "Search term must be at least 2 characters")
  const SelfDeactivation := HttpError(400, "Cannot deactivate your own account")
  const DeactivateFailed := HttpError(500, "Failed to deactivate user")
  const ActivateFailed := HttpError(500, "Failed to activate user")
  const PasswordChanged := "Password changed successfully"
  const UserDeactivated := "User deactivated successfully"
  const UserActivated := "User activated successfully"

  /** The token lifetime the login endpoint asks for, and the `expires_in`
      it reports, in seconds. */
  const LoginTokenMinutes: int := 30
  const ExpiresIn: int := 1800

  /** A service error as the endpoint answers it: HTTP errors pass, any
      other failure becomes the endpoint's own 500. */
  function Answer<T>(r: Result<T, ServiceError>, failed: HttpError): Result<T, HttpError> {
    match r
    case Ok(v) => Ok(v)
    case Err(Http(e)) => Err(e)
    case Err(DatabaseFailure(_)) => Err(failed)
  }

  // ---- signup ----

  /** `signup`: the service's answer, a database failure reported as 500. */
  function Signup(users: seq<User>, data: NewUser, hash: string, now: Instant): (Result<User, HttpError>, seq<User>) {
    var r := Create(users, data, hash, now);
    if r.Ok? then (Ok(r.value), users + [r.value]) else (Answer(r, SignupFailed), users)
  }

  /** Sign-up answers 400 iff the username or the address is taken, and
      then creates nothing; otherwise the new account is the last row. */
  lemma SignupRules(users: seq<User>, data: NewUser, hash: string, now: Instant)
    ensures var (r, users') := Signup(users, data, hash, now);
      && (r.Err? <==> exists u :: u in users && (u.username == Lower(data.username) || u.email == Lower(data.email)))
      && (r.Err? ==> r.error.status == 400 && users' == users)
      && (r.Ok? ==> users' == users + [r.value] && r.value.username == Lower(data.username) && r.value.isActive)
  {
    CreateRules(users, data, hash, now);
  }

  // ---- login ----

  /** The `TokenResponse` of a successful login; the token is its payload. */
  datatype TokenResponse = TokenResponse(accessToken: Payload, tokenType: string, expiresIn: int, user: User)

  /** The claims a login puts in the token. */
  function LoginClaims(u: User): Payload {
    map["sub" := Str(IntString(u.id)), "username" := Str(u.username), "role" := Str(u.role), "email" := Str(u.email)]
  }

  /** `login`: no user is a 401 with one fixed message, whichever of login
      and password was wrong. */
  function Login(users: seq<User>, login: string, password: string, verify: (string, string) -> bool, now: Instant)
    : (Result<TokenResponse, HttpError>, seq<User>)
  {
    var (r, users') := Authenticate(users, login, password, verify, now);
    match r
    case Err(e) => (Answer<TokenResponse>(Err(e), LoginFailed), users')
    case Ok(None) => (Err(BadLogin), users')
    case Ok(Some(u)) =>
      var token := CreateAccessToken(LoginClaims(u), Some(LoginTokenMinutes * MicrosPerMinute), now);
      (Ok(TokenResponse(token, "bearer", ExpiresIn, u)), users')
  }

  /** A login token expires exactly `expires_in` seconds after it is made,
      and reading it back yields the account's id (as the decimal string
      the id parses back from), username and role. */
  lemma LoginTokenReadsBack(u: User, now: Instant)
    ensures var token := CreateAccessToken(LoginClaims(u), Some(LoginTokenMinutes * MicrosPerMinute), now);
      && token["exp"] == Time(now + ExpiresIn * MicrosPerSecond)
      && var cur := GetCurrentUser(Some(token));
         && cur.Ok?
         && cur.value["user_id"] == Str(IntString(u.id))
         && UserIdOf(cur.value) == Some(u.id as int)
         && cur.value["username"] == Str(u.username)
         && cur.value["role"] == Str(u.role)
  {
    ParseIntString(u.id);
    LoginTokenClaims(u, now);
  }

  /** The claims a login token carries, read off the map. */
  lemma LoginTokenClaims(u: User, now: Instant)
    ensures var token := CreateAccessToken(LoginClaims(u), Some(LoginTokenMinutes * MicrosPerMinute), now);
      && "sub" in token && token["sub"] == Str(IntString(u.id))
      && "username" in token && token["username"] == Str(u.username)
      && "role" in token && token["role"] == Str(u.role)
  {
    var claims := LoginClaims(u);
    assert "sub" in claims && "username" in claims && "role" in claims;
  }

  /** An unknown login and a wrong password get the same 401 and change
      nothing; a deactivated account gets the service's 401; a successful
      login is a bearer token for an active account holding the login,
      whose password checks. */
  lemma LoginRules(users: seq<User>, login: string, password: string, verify: (string, string) -> bool, now: Instant)
    ensures var (r, users') := Login(users, login, password, verify, now);
      && (r.Err? ==> users' == users && r.error.status == 401)
      && (r.Err? && r.error != BadLogin ==> r.error == AccountDeactivated)
      && ((forall u :: u in users ==> u.username != Lower(login) && u.email != Lower(login)) ==> r == Err(BadLogin))
      && (r.Ok? ==>
            && r.value.tokenType == "bearer" && r.value.expiresIn == 1800
            && r.value.accessToken == CreateAccessToken(LoginClaims(r.value.user), Some(LoginTokenMinutes * MicrosPerMinute), now)
            && exists i :: 0 <= i < |users|
                 && (users[i].username == Lower(login) || users[i].email == Lower(login))
                 && users[i].isActive && verify(password, users[i].hashedPassword)
                 && r.value.user == users[i].(lastLogin := Some(now))
                 && users' == users[i := r.value.user])
  {
    AuthenticateRules(users, login, password, verify, now);
  }

  /** `get_user_by_id` finds the row at `i` when ids ascend. */
  lemma ByIdAt(users: seq<User>, i: nat)
    requires i < |users|
    requires forall a, b :: 0 <= a < b < |users| ==> users[a].id < users[b].id
    ensures GetUserById(users, users[i].id) == Some(users[i])
  {
    var r := GetUserById(users, users[i].id);
    assert users[i] in users;
    var j :| 0 <= j < |users| && users[j] == r.value;
  }

  // ---- /me ----

  /** `int(current_user["user_id"])`: a numeric string or a number gives
      the id; anything else raises, which the endpoints answer with 500. */
  function UserIdOf(current: Payload): Option<int> {
    match Get(current, "user_id", Null)
    case Str(s) => ParseInt(s)
    case Int(i) => Some(i)
    case _ => None
  }

  /** `GET /me`. */
  function Me(users: seq<User>, current: Payload): (r: Result<User, HttpError>)
    ensures UserIdOf(current).None? ==> r == Err(MeFailed)
    ensures UserIdOf(current).Some? ==>
      (r.Err? <==> forall u :: u in users ==> u.id != UserIdOf(current).value)
    ensures r.Ok? ==> r.value in users && r.value.id == UserIdOf(current).value
    ensures r.Err? && UserIdOf(current).Some? ==> r.error == UserNotFound
  {
    var id := UserIdOf(current);
    if id.None? then Err(MeFailed)
    else
      var u := GetUserById(users, id.value);
      if u.None? then Err(UserNotFound) else Ok(u.value)
  }

  /** The token of a successful login names the account it logged into:
      `GET /me` with it returns that account as the table now holds it. */
  lemma MeAfterLogin(users: seq<User>, login: string, password: string, verify: (string, string) -> bool, now: Instant)
    requires TableInvariant(users)
    requires Login(users, login, password, verify, now).0.Ok?
    ensures var (r, users') := Login(users, login, password, verify, now);
      var cur := GetCurrentUser(Some(r.value.accessToken));
      cur.Ok? && Me(users', cur.value) == Ok(r.value.user)
  {
    LoginRules(users, login, password, verify, now);
    var (r, users') := Login(users, login, password, verify, now);
    var u := r.value.user;
    LoginTokenReadsBack(u, now);
    var i :| 0 <= i < |users| && u == users[i].(lastLogin := Some(now)) && users' == users[i := u];
    assert forall j :: 0 <= j < |users'| ==> users'[j].id == users[j].id;
    ByIdAt(users', i);
  }

  /** `PUT /me`. */
  function UpdateMe(users: seq<User>, current: Payload, p: UserPatch, now: Instant): (Result<User, HttpError>, seq<User>) {
    var id := UserIdOf(current);
    if id.None? then (Err(MeUpdateFailed), users)
    else
      var (r, users') := Update(users, id.value, p, now);
      (Answer(r, MeUpdateFailed), users')
  }

  /** `POST /change-password`. */
  function ChangeMyPassword(users: seq<User>, current: Payload, currentPassword: string, newHash: string,
                            verify: (string, string) -> bool, now: Instant): (Result<string, HttpError>, seq<User>)
  {
    var id := UserIdOf(current);
    if id.None? then (Err(PasswordChangeFailed), users)
    else
      var (r, users') := ChangePassword(users, id.value, currentPassword, newHash, verify, now);
      (if r.Ok? then Ok(PasswordChanged) else Answer<string>(Err(r.error), PasswordChangeFailed), users')
  }

  /** A profile update or a password change through the token's id touches
      only the account the token names, and a refusal changes nothing. */
  lemma OwnAccountOnly(users: seq<User>, current: Payload, p: UserPatch, currentPassword: string, newHash: string,
                       verify: (string, string) -> bool, now: Instant)
    ensures var (r, users') := UpdateMe(users, current, p, now);
      && (r.Err? ==> users' == users)
      && (r.Ok? ==> UserIdOf(current).Some? && r.value.id == UserIdOf(current).value
                    && exists i :: 0 <= i < |users| && users[i].id == r.value.id && users' == users[i := r.value])
    ensures var (r, users') := ChangeMyPassword(users, current, currentPassword, newHash, verify, now);
      && (r.Err? ==> users' == users)
      && (r.Ok? ==>
            && r.value == PasswordChanged && UserIdOf(current).Some?
            && exists i :: 0 <= i < |users| && users[i].id == UserIdOf(current).value
                 && verify(currentPassword, users[i].hashedPassword)
                 && users' == users[i := users[i].(hashedPassword := newHash, updatedAt := Some(now))])
  {
    var id := UserIdOf(current);
    if id.Some? {
      UpdateRules(users, id.value, p, now);
      ChangePasswordRules(users, id.value, currentPassword, newHash, verify, now);
    }
  }

  // ---- admin: list and search ----

  /** `if page < 1: page = 1` */
  function ClampPage(page: int): (p: int)
    ensures p >= 1
    ensures page >= 1 ==> p == page
  {
    if page < 1 then 1 else page
  }

  /** `if page_size < 1 or page_size > 100: page_size = 10` */
  function ClampPageSize(pageSize: int): (s: int)
    ensures 1 <= s <= 100
    ensures 1 <= pageSize <= 100 ==> s == pageSize
    ensures !(1 <= pageSize <= 100) ==> s == 10
  {
    if pageSize < 1 || pageSize > 100 then 10 else pageSize
  }

  /** The `UserListResponse`. */
  datatype UserList = UserList(users: seq<User>, total: nat, page: int, pageSize: int, totalPages: nat)

  /** `GET /users`. */
  function ListUsers(users: seq<User>, page: int, pageSize: int, role: Option<string>, activeOnly: bool): UserList {
    var p := ClampPage(page);
    var s := ClampPageSize(pageSize);
    var (rows, total) := Paginate(users, p, s, role, activeOnly);
    UserList(rows, total, p, s, PageCount(total, s))
  }

  /** Out-of-range paging is clamped, never refused; a page holds at most
      100 users, all passing the filters; the page count covers the total
      without a spare page, and a page holds users iff its number is at
      most the page count. */
  lemma ListUsersRules(users: seq<User>, page: int, pageSize: int, role: Option<string>, activeOnly: bool)
    ensures var l := ListUsers(users, page, pageSize, role, activeOnly);
      && l.page >= 1 && 1 <= l.pageSize <= 100 && |l.users| <= l.pageSize
      && (forall u :: u in l.users ==> u in users && Listed(u, role, activeOnly))
      && l.totalPages * l.pageSize >= l.total && (l.totalPages == 0 || (l.totalPages - 1) * l.pageSize < l.total)
      && (l.users != [] <==> l.page <= l.totalPages)
  {
    PaginateRules(users, ClampPage(page), ClampPageSize(pageSize), role, activeOnly);
  }

  /** `GET /users/search`. */
  function SearchUsers(users: seq<User>, q: string, page: int, pageSize: int): Result<UserList, HttpError> {
    if q == "" || |Strip(q)| < 2 then Err(ShortSearchTerm)
    else
      var p := ClampPage(page);
      var s := ClampPageSize(pageSize);
      var (rows, total) := Search(users, Strip(q), p, s);
      Ok(UserList(rows, total, p, s, PageCount(total, s)))
  }

  /** A term shorter than two characters once stripped is refused, so a
      blank term never lists everyone; otherwise every user found contains
      the stripped, lower-cased term, and paging is clamped as in the
      list. */
  lemma SearchUsersRules(users: seq<User>, q: string, page: int, pageSize: int)
    ensures SearchUsers(users, q, page, pageSize).Err? <==> |Strip(q)| < 2
    ensures SearchUsers(users, q, page, pageSize).Err? ==> SearchUsers(users, q, page, pageSize).error == ShortSearchTerm
    ensures SearchUsers(users, q, page, pageSize).Ok? ==>
      var l := SearchUsers(users, q, page, pageSize).value;
      && l.page >= 1 && 1 <= l.pageSize <= 100 && |l.users| <= l.pageSize
      && (forall u :: u in l.users ==> u in users && SearchHit(u, Lower(Strip(q))))
  {
    if q != "" && |Strip(q)| >= 2 {
      SearchRules(users, Strip(q), ClampPage(page), ClampPageSize(pageSize));
    }
  }

  // ---- admin: deactivate and activate ----

  /** `POST /users/{id}/deactivate`. */
  function DeactivateUser(users: seq<User>, current: Payload, id: int, now: Instant): (Result<string, HttpError>, seq<User>) {
    var me := UserIdOf(current);
    if me.None? then (Err(DeactivateFailed), users)
    else if me.value == id then (Err(SelfDeactivation), users)
    else
      var (r, users') := SetFlag(users, id, ActiveFlag, false, now);
      (if r.Ok? then Ok(UserDeactivated) else Answer<string>(Err(r.error), DeactivateFailed), users')
  }

  /** `POST /users/{id}/activate`: no self check. */
  function ActivateUser(users: seq<User>, id: int, now: Instant): (Result<string, HttpError>, seq<User>) {
    var (r, users') := SetFlag(users, id, ActiveFlag, true, now);
    (if r.Ok? then Ok(UserActivated) else Answer<string>(Err(r.error), ActivateFailed), users')
  }

  /** An admin can never deactivate the account their token names; a
      missing id is a 404; otherwise exactly that account is switched off
      and no other row changes. Activation sets the flag back. */
  lemma DeactivationRules(users: seq<User>, current: Payload, id: int, now: Instant)
    requires TableInvariant(users)
    ensures UserIdOf(current) == Some(id) ==> DeactivateUser(users, current, id, now) == (Err(SelfDeactivation), users)
    ensures var (r, users') := DeactivateUser(users, current, id, now);
      && (r.Err? ==> users' == users)
      && (r.Err? && UserIdOf(current).Some? && UserIdOf(current).value != id ==> r.error == UserNotFound)
      && (r.Ok? ==>
            && UserIdOf(current) != Some(id) && |users'| == |users|
            && (forall j :: 0 <= j < |users| && users[j].id != id ==> users'[j] == users[j])
            && (forall j :: 0 <= j < |users| && users[j].id == id ==> !users'[j].isActive))
    ensures var (r, users') := ActivateUser(users, id, now);
      && (r.Err? <==> forall u :: u in users ==> u.id != id)
      && (r.Ok? ==> forall j :: 0 <= j < |users| && users[j].id == id ==> users'[j].isActive)
  {
    SetFlagRules(users, id, ActiveFlag, false, now, "", "", (a: string, b: string) => false);
    SetFlagRules(users, id, ActiveFlag, true, now, "", "", (a: string, b: string) => false);
  }
}
