/** `UserService`: sign-up, login, profile and password changes, account
    flags and the user list, over the `users` table. The table is the list
    of rows in insertion order; a query's `.first()` is the first matching
    row in that order, and a new row's id is one more than the last id, as
    SQLite assigns row ids. Password hashing and checking are not modelled:
    the new hash is a parameter and the check is the function `verify`. */
module UserService {
  import opened Wrappers
  import opened Text
  import opened Schema
  import opened Paging
  import opened Rows

  datatype User = User(
    id: nat,
    username: string,
    email: string,
    hashedPassword: string,
    firstName: string,
    lastName: string,
    role: string,
    isActive: bool,
    isVerified: bool,
    phoneNumber: Option<string>,
    organization: Option<string>,
    licenseNumber: Option<string>,
    lastLogin: Option<Instant>,
    createdAt: Instant,
    updatedAt: Option<Instant>)

  /** A validated `UserCreate`. */
  datatype NewUser = NewUser(
    username: string,
    email: string,
    password: string,
    firstName: string,
    lastName: string,
    role: string,
    phoneNumber: Option<string>,
    organization: Option<string>,
    licenseNumber: Option<string>)

  /** A validated `UserUpdate`: each field left out, sent as `null`, or sent. */
  datatype UserPatch = UserPatch(
    firstName: Given<Option<string>>,
    lastName: Given<Option<string>>,
    email: Given<Option<string>>,
    phoneNumber: Given<Option<string>>,
    organization: Given<Option<string>>,
    licenseNumber: Given<Option<string>>)

  /** What the service raises: an `HTTPException`, or a `DatabaseError`
      whose message starts with `context`. */
  datatype ServiceError = Http(error: HttpError) | DatabaseFailure(context: string)

  const UserNotFound := HttpError(404, "User not found")
  const UsernameTaken := HttpError(400, "Username already registered")
  const EmailTaken := HttpError(400, "Email already registered")
  const EmailTakenByOther := HttpError(400, "Email already registered by another user")
  const AccountDeactivated := HttpError(401, "Account is deactivated")
  const WrongCurrentPassword := HttpError(400, "Current password is incorrect")

  function IndexOfId(users: seq<User>, id: int): Option<nat> {
    FirstWhere(users, (u: User) => u.id == id)
  }

  /** `filter(or_(username == name, email == mail)).first()` */
  function ClashIndex(users: seq<User>, name: string, mail: string): Option<nat> {
    FirstWhere(users, (u: User) => u.username == name || u.email == mail)
  }

  /** `filter(email == mail, id != id).first()` */
  function EmailHolder(users: seq<User>, mail: string, id: int): Option<nat> {
    FirstWhere(users, (u: User) => u.email == mail && u.id != id)
  }

  /** The id SQLite gives the next row. */
  function NextId(users: seq<User>): nat {
    if users == [] then 1 else users[|users| - 1].id + 1
  }

  /** What the table's keys and constraints guarantee: ids ascending in
      insertion order, usernames and e-mail addresses unique. */
  ghost predicate TableInvariant(users: seq<User>) {
    && (forall i, j :: 0 <= i < j < |users| ==> users[i].id < users[j].id)
    && (forall i, j :: 0 <= i < j < |users| ==> users[i].username != users[j].username)
    && (forall i, j :: 0 <= i < j < |users| ==> users[i].email != users[j].email)
  }

  predicate UniqueEmails(users: seq<User>) {
    forall i, j :: 0 <= i < j < |users| ==> users[i].email != users[j].email
  }

  // ---- lookups ----

  /** `get_user_by_id` */
  function GetUserById(users: seq<User>, id: int): (r: Option<User>)
    ensures r.Some? ==> r.value in users && r.value.id == id
    ensures r.None? <==> forall u :: u in users ==> u.id != id
  {
    var i := IndexOfId(users, id);
    if i.None? then None else Some(users[i.value])
  }

  /** `get_user_by_username`: the name is lower-cased before the lookup. */
  function GetUserByUsername(users: seq<User>, username: string): (r: Option<User>)
    ensures r.Some? ==> r.value in users && r.value.username == Lower(username)
    ensures r.None? <==> forall u :: u in users ==> u.username != Lower(username)
  {
    var i := FirstWhere(users, (u: User) => u.username == Lower(username));
    if i.None? then None else Some(users[i.value])
  }

  /** `get_user_by_email`: the address is lower-cased before the lookup. */
  function GetUserByEmail(users: seq<User>, email: string): (r: Option<User>)
    ensures r.Some? ==> r.value in users && r.value.email == Lower(email)
    ensures r.None? <==> forall u :: u in users ==> u.email != Lower(email)
  {
    var i := FirstWhere(users, (u: User) => u.email == Lower(email));
    if i.None? then None else Some(users[i.value])
  }

  // ---- create_user ----

  /** The row `create_user` builds. */
  function NewRow(users: seq<User>, data: NewUser, hash: string, now: Instant): User {
    User(NextId(users), Lower(data.username), Lower(data.email), hash, data.firstName, data.lastName,
         data.role, true, false, data.phoneNumber, data.organization, data.licenseNumber, None, now, None)
  }

  /** `create_user`: refused when a row holds the lower-cased username or
      address, naming the username when the first such row holds it. */
  function Create(users: seq<User>, data: NewUser, hash: string, now: Instant): Result<User, ServiceError> {
    var clash := ClashIndex(users, Lower(data.username), Lower(data.email));
    if clash.Some? then
      Err(Http(if users[clash.value].username == Lower(data.username) then UsernameTaken else EmailTaken))
    else Ok(NewRow(users, data, hash, now))
  }

  /** Sign-up is refused iff the username or the address is already held;
      when only one of them is held, the message names that one. An account
      is created active and unverified, with a lower-cased username and
      address and the next id. */
  lemma CreateRules(users: seq<User>, data: NewUser, hash: string, now: Instant)
    ensures Create(users, data, hash, now).Err? <==>
      exists u :: u in users && (u.username == Lower(data.username) || u.email == Lower(data.email))
    ensures (forall u :: u in users ==> u.email != Lower(data.email)) && Create(users, data, hash, now).Err?
      ==> Create(users, data, hash, now).error == Http(UsernameTaken)
    ensures (forall u :: u in users ==> u.username != Lower(data.username)) && Create(users, data, hash, now).Err?
      ==> Create(users, data, hash, now).error == Http(EmailTaken)
    ensures Create(users, data, hash, now).Ok? ==>
      var u := Create(users, data, hash, now).value;
      && u.username == Lower(data.username) && u.email == Lower(data.email)
      && u.isActive && !u.isVerified && u.role == data.role && u.lastLogin.None?
      && u.hashedPassword == hash && u.createdAt == now
  {
    var name, mail := Lower(data.username), Lower(data.email);
    var clash := ClashIndex(users, name, mail);
    if clash.None? {
      forall u | u in users ensures !(u.username == name || u.email == mail) {
        var j :| 0 <= j < |users| && users[j] == u;
      }
    }
  }

  /** In a table whose ids ascend, the last id is the largest. Stated for a
      table that need not satisfy the other constraints. */
  lemma LastIdIsLargest(users: seq<User>, j: nat)
    requires j < |users|
    requires forall a, b :: 0 <= a < b < |users| ==> users[a].id < users[b].id
    ensures users[j].id <= users[|users| - 1].id
  {
  }

  /** A created row keeps the table's keys and constraints, its id above
      every id before it. */
  lemma CreateKeepsInvariant(users: seq<User>, data: NewUser, hash: string, now: Instant)
    requires TableInvariant(users)
    requires Create(users, data, hash, now).Ok?
    ensures forall v :: v in users ==> v.id < Create(users, data, hash, now).value.id
    ensures TableInvariant(users + [Create(users, data, hash, now).value])
  {
    CreateRules(users, data, hash, now);
    var u := Create(users, data, hash, now).value;
    forall v | v in users ensures v.id < u.id {
      var j :| 0 <= j < |users| && users[j] == v;
      LastIdIsLargest(users, j);
    }
    var t := users + [u];
    forall i, j | 0 <= i < j < |t| ensures t[i].id < t[j].id && t[i].username != t[j].username && t[i].email != t[j].email {
      if j == |users| {
        assert t[i] in users;
      }
    }
  }

  // ---- authenticate_user ----

  /** `authenticate_user`: the login, lower-cased, is looked up as a
      username or an address. Returns the answer and the new table. */
  function Authenticate(users: seq<User>, login: string, password: string,
                        verify: (string, string) -> bool, now: Instant)
    : (Result<Option<User>, ServiceError>, seq<User>)
  {
    var key := Lower(login);
    var i := ClashIndex(users, key, key);
    if i.None? then (Ok(None), users)
    else if !users[i.value].isActive then (Err(Http(AccountDeactivated)), users)
    else if !verify(password, users[i.value].hashedPassword) then (Ok(None), users)
    else
      var u := users[i.value].(lastLogin := Some(now));
      (Ok(Some(u)), users[i.value := u])
  }

  /** An unknown login and a wrong password both give no user and change
      nothing; an inactive account is refused before its password is
      checked, whatever the password; a successful login is an active row
      holding the login whose password checks, and only its `last_login`
      changes. */
  lemma AuthenticateRules(users: seq<User>, login: string, password: string,
                          verify: (string, string) -> bool, now: Instant)
    ensures var (r, users') := Authenticate(users, login, password, verify, now);
      && ((forall u :: u in users ==> u.username != Lower(login) && u.email != Lower(login)) ==> r == Ok(None))
      && (r.Ok? && r.value.None? ==> users' == users)
      && (r.Err? ==> r.error == Http(AccountDeactivated) && users' == users
                     && forall p :: Authenticate(users, login, p, verify, now).0 == r)
      && (r.Ok? && r.value.Some? ==>
            exists i :: 0 <= i < |users|
              && (users[i].username == Lower(login) || users[i].email == Lower(login))
              && users[i].isActive && verify(password, users[i].hashedPassword)
              && r.value.value == users[i].(lastLogin := Some(now))
              && users' == users[i := r.value.value])
  {
    var key := Lower(login);
    var i := ClashIndex(users, key, key);
  }

  /** A login changes only `last_login`, so ids, usernames and addresses
      stay unique. */
  lemma AuthenticateKeepsInvariant(users: seq<User>, login: string, password: string,
                                   verify: (string, string) -> bool, now: Instant)
    requires TableInvariant(users)
    ensures TableInvariant(Authenticate(users, login, password, verify, now).1)
  {
    var users' := Authenticate(users, login, password, verify, now).1;
    assert |users'| == |users|;
    assert forall k :: 0 <= k < |users| ==>
      users'[k].id == users[k].id && users'[k].username == users[k].username && users'[k].email == users[k].email;
  }

  // ---- update_user ----

  datatype UserField = FirstNameField | LastNameField | EmailField | PhoneField | OrganizationField | LicenseField

  /** The columns declared `nullable=False` among the updatable ones. */
  predicate Required(f: UserField) { f == FirstNameField || f == LastNameField || f == EmailField }

  function ItemOf(f: UserField, g: Given<Option<string>>): seq<(UserField, Option<string>)> {
    if g.Given? then [(f, g.value)] else []
  }

  /** `user_data.dict(exclude_unset=True).items()`: the fields sent, in
      declaration order. */
  function SetItems(p: UserPatch): seq<(UserField, Option<string>)> {
    ItemOf(FirstNameField, p.firstName) + ItemOf(LastNameField, p.lastName) + ItemOf(EmailField, p.email)
    + ItemOf(PhoneField, p.phoneNumber) + ItemOf(OrganizationField, p.organization)
    + ItemOf(LicenseField, p.licenseNumber)
  }

  /** Whether some sent item writes `null` into a required column: the
      commit then fails. */
  predicate NullsRequired(items: seq<(UserField, Option<string>)>) {
    exists j :: 0 <= j < |items| && Required(items[j].0) && items[j].1.None?
  }

  /** One `setattr`: a truthy address is stored lower-cased. A `null` for a
      required column leaves the row as it is, since that commit fails. */
  function SetAttr(u: User, f: UserField, v: Option<string>): User {
    match f
    case FirstNameField => if v.Some? then u.(firstName := v.value) else u
    case LastNameField => if v.Some? then u.(lastName := v.value) else u
    case EmailField => if v.Some? then u.(email := if v.value != "" then Lower(v.value) else v.value) else u
    case PhoneField => u.(phoneNumber := v)
    case OrganizationField => u.(organization := v)
    case LicenseField => u.(licenseNumber := v)
  }

  /** The `setattr` loop over `items`. */
  function ApplyItems(u: User, items: seq<(UserField, Option<string>)>): User
    decreases |items|
  {
    if items == [] then u else ApplyItems(SetAttr(u, items[0].0, items[0].1), items[1..])
  }

  /** Whether the patch changes the address to one that must be checked
      against the other rows. */
  predicate ChangesEmail(p: UserPatch, u: User) {
    p.email.Given? && p.email.value.Some? && p.email.value.value != "" && Lower(p.email.value.value) != u.email
  }

  /** `update_user`: returns the answer and the new table. */
  function Update(users: seq<User>, id: int, p: UserPatch, now: Instant): (Result<User, ServiceError>, seq<User>) {
    var i := IndexOfId(users, id);
    if i.None? then (Err(Http(UserNotFound)), users)
    else
      var u := users[i.value];
      if ChangesEmail(p, u) && EmailHolder(users, Lower(p.email.value.value), id).Some? then
        (Err(Http(EmailTakenByOther)), users)
      else if NullsRequired(SetItems(p)) then (Err(DatabaseFailure("Failed to update user")), users)
      else
        var u' := ApplyItems(u, SetItems(p)).(updatedAt := Some(now));
        var users' := users[i.value := u'];
        if !UniqueEmails(users') then (Err(DatabaseFailure("Failed to update user")), users)
        else (Ok(u'), users')
  }

  /** The value a sent field ends up with. */
  function Patched(prev: Option<string>, g: Given<Option<string>>): Option<string> {
    if g.Given? then g.value else prev
  }

  lemma {:induction false} ApplyItemsAppend(u: User, a: seq<(UserField, Option<string>)>, b: seq<(UserField, Option<string>)>)
    ensures ApplyItems(u, a + b) == ApplyItems(ApplyItems(u, a), b)
    decreases |a|
  {
    if a == [] {
      assert a + b == b;
    } else {
      assert (a + b)[0] == a[0];
      assert (a + b)[1..] == a[1..] + b;
      ApplyItemsAppend(SetAttr(u, a[0].0, a[0].1), a[1..], b);
    }
  }

  /** One field of the patch, applied when it was sent. */
  function ApplyGiven(u: User, f: UserField, g: Given<Option<string>>): User {
    if g.Given? then SetAttr(u, f, g.value) else u
  }

  lemma ApplyItem(u: User, f: UserField, g: Given<Option<string>>)
    ensures ApplyItems(u, ItemOf(f, g)) == ApplyGiven(u, f, g)
  {
    if g.Given? {
      assert ApplyItems(u, ItemOf(f, g)) == ApplyItems(SetAttr(u, f, g.value), []);
    }
  }

  /** The loop over the sent items is the six fields applied in turn. */
  lemma ApplyPatchInTurn(u: User, p: UserPatch)
    ensures ApplyItems(u, SetItems(p))
      == ApplyGiven(ApplyGiven(ApplyGiven(ApplyGiven(ApplyGiven(ApplyGiven(u,
           FirstNameField, p.firstName), LastNameField, p.lastName), EmailField, p.email),
           PhoneField, p.phoneNumber), OrganizationField, p.organization), LicenseField, p.licenseNumber)
  {
    var i1, i2, i3 := ItemOf(FirstNameField, p.firstName), ItemOf(LastNameField, p.lastName), ItemOf(EmailField, p.email);
    var i4, i5, i6 := ItemOf(PhoneField, p.phoneNumber), ItemOf(OrganizationField, p.organization), ItemOf(LicenseField, p.licenseNumber);
    ApplyItemsAppend(u, i1 + i2 + i3 + i4 + i5, i6);
    ApplyItemsAppend(u, i1 + i2 + i3 + i4, i5);
    ApplyItemsAppend(u, i1 + i2 + i3, i4);
    ApplyItemsAppend(u, i1 + i2, i3);
    ApplyItemsAppend(u, i1, i2);
    var v1 := ApplyItems(u, i1);
    ApplyItem(u, FirstNameField, p.firstName);
    var v2 := ApplyItems(v1, i2);
    ApplyItem(v1, LastNameField, p.lastName);
    var v3 := ApplyItems(v2, i3);
    ApplyItem(v2, EmailField, p.email);
    var v4 := ApplyItems(v3, i4);
    ApplyItem(v3, PhoneField, p.phoneNumber);
    var v5 := ApplyItems(v4, i5);
    ApplyItem(v4, OrganizationField, p.organization);
    ApplyItem(v5, LicenseField, p.licenseNumber);
  }

  /** No required column is sent as `null`. */
  lemma NoNullsRequired(p: UserPatch)
    requires !NullsRequired(SetItems(p))
    ensures p.firstName.Given? ==> p.firstName.value.Some?
    ensures p.lastName.Given? ==> p.lastName.value.Some?
    ensures p.email.Given? ==> p.email.value.Some?
  {
    var i1, i2, i3 := ItemOf(FirstNameField, p.firstName), ItemOf(LastNameField, p.lastName), ItemOf(EmailField, p.email);
    var i4, i5, i6 := ItemOf(PhoneField, p.phoneNumber), ItemOf(OrganizationField, p.organization), ItemOf(LicenseField, p.licenseNumber);
    assert SetItems(p) == i1 + i2 + i3 + i4 + i5 + i6;
    if p.firstName.Given? { assert i1[0] == SetItems(p)[0]; }
    if p.lastName.Given? { assert i2[0] == SetItems(p)[|i1|]; }
    if p.email.Given? { assert i3[0] == SetItems(p)[|i1| + |i2|]; }
  }

  /** The `setattr` loop writes exactly the fields sent, storing a truthy
      address lower-cased, and leaves every other column as it was. */
  lemma PatchWritesSentFields(u: User, p: UserPatch)
    requires !NullsRequired(SetItems(p))
    ensures var v := ApplyItems(u, SetItems(p));
      && Some(v.firstName) == Patched(Some(u.firstName), p.firstName)
      && Some(v.lastName) == Patched(Some(u.lastName), p.lastName)
      && v.email == (if p.email.Given? && p.email.value.Some? && p.email.value.value != ""
                     then Lower(p.email.value.value)
                     else if p.email.Given? && p.email.value.Some? then "" else u.email)
      && v.phoneNumber == Patched(u.phoneNumber, p.phoneNumber)
      && v.organization == Patched(u.organization, p.organization)
      && v.licenseNumber == Patched(u.licenseNumber, p.licenseNumber)
      && v.(firstName := u.firstName, lastName := u.lastName, email := u.email, phoneNumber := u.phoneNumber,
            organization := u.organization, licenseNumber := u.licenseNumber) == u
  {
    NoNullsRequired(p);
    ApplyPatchInTurn(u, p);
    var v1 := ApplyGiven(u, FirstNameField, p.firstName);
    var v2 := ApplyGiven(v1, LastNameField, p.lastName);
    var v3 := ApplyGiven(v2, EmailField, p.email);
    var v4 := ApplyGiven(v3, PhoneField, p.phoneNumber);
    var v5 := ApplyGiven(v4, OrganizationField, p.organization);
    var v6 := ApplyGiven(v5, LicenseField, p.licenseNumber);
    assert v1 == u.(firstName := v1.firstName);
    assert v2 == v1.(lastName := v2.lastName);
    assert v3 == v2.(email := v3.email);
    assert v4 == v3.(phoneNumber := v4.phoneNumber);
    assert v5 == v4.(organization := v5.organization);
    assert v6 == v5.(licenseNumber := v6.licenseNumber);
  }



  /** An update of a missing id is a 404; an address held by another row is
      a 400; a `null` for a required column fails at commit; every refusal
      leaves the table as it was. A successful update rewrites only that
      row, keeping its id, username, password, role and flags. */
  lemma UpdateRules(users: seq<User>, id: int, p: UserPatch, now: Instant)
    ensures var (r, users') := Update(users, id, p, now);
      && ((forall u :: u in users ==> u.id != id) <==> r == Err(Http(UserNotFound)))
      && (r.Err? ==> users' == users)
      && (r.Ok? ==>
            exists i :: 0 <= i < |users| && users[i].id == id && users' == users[i := r.value]
              && r.value.id == id && r.value.username == users[i].username
              && r.value.hashedPassword == users[i].hashedPassword && r.value.role == users[i].role
              && r.value.isActive == users[i].isActive && r.value.isVerified == users[i].isVerified
              && r.value.updatedAt == Some(now)
              && (p.firstName.Given? ==> p.firstName.value == Some(r.value.firstName))
              && (p.phoneNumber.Given? ==> p.phoneNumber.value == r.value.phoneNumber)
              && (!p.firstName.Given? ==> r.value.firstName == users[i].firstName)
              && (!p.email.Given? ==> r.value.email == users[i].email))
  {
    var i := IndexOfId(users, id);
    if i.Some? && !NullsRequired(SetItems(p)) {
      PatchWritesSentFields(users[i.value], p);
    }
  }

  /** A successful update keeps the table's keys and constraints, and no
      address is ever taken from another row. */
  lemma UpdateKeepsInvariant(users: seq<User>, id: int, p: UserPatch, now: Instant)
    requires TableInvariant(users)
    ensures TableInvariant(Update(users, id, p, now).1)
  {
    var i := IndexOfId(users, id);
    if i.Some? && !NullsRequired(SetItems(p)) {
      PatchWritesSentFields(users[i.value], p);
    }
  }

  // ---- change_password ----

  /** `change_password`: returns the answer and the new table. */
  function ChangePassword(users: seq<User>, id: int, current: string, newHash: string,
                          verify: (string, string) -> bool, now: Instant)
    : (Result<bool, ServiceError>, seq<User>)
  {
    var i := IndexOfId(users, id);
    if i.None? then (Err(Http(UserNotFound)), users)
    else if !verify(current, users[i.value].hashedPassword) then (Err(Http(WrongCurrentPassword)), users)
    else (Ok(true), users[i.value := users[i.value].(hashedPassword := newHash, updatedAt := Some(now))])
  }

  /** A missing id is a 404 and a wrong current password a 400, both
      leaving the hash as it was; otherwise only that row's hash (and
      `updated_at`) changes, and a password whose hash is the new one then
      checks. */
  lemma ChangePasswordRules(users: seq<User>, id: int, current: string, newHash: string,
                            verify: (string, string) -> bool, now: Instant)
    ensures var (r, users') := ChangePassword(users, id, current, newHash, verify, now);
      && ((forall u :: u in users ==> u.id != id) <==> r == Err(Http(UserNotFound)))
      && (r.Err? ==> users' == users)
      && (r.Ok? <==> exists i :: 0 <= i < |users| && users[i].id == id && verify(current, users[i].hashedPassword)
                          && (forall j :: 0 <= j < i ==> users[j].id != id)
                          && users' == users[i := users[i].(hashedPassword := newHash, updatedAt := Some(now))])
  {
  }

  /** After a successful change, a password that checks against the new
      hash checks against the row the change wrote. */
  lemma NewPasswordChecks(users: seq<User>, id: int, current: string, newPassword: string, newHash: string,
                          verify: (string, string) -> bool, now: Instant)
    requires verify(newPassword, newHash)
    ensures var (r, users') := ChangePassword(users, id, current, newHash, verify, now);
      r.Ok? ==> exists i :: 0 <= i < |users'| && users'[i].id == id && verify(newPassword, users'[i].hashedPassword)
                   && (forall j :: 0 <= j < i ==> users'[j].id != id)
  {
    var i := IndexOfId(users, id);
    if i.Some? && verify(current, users[i.value].hashedPassword) {
      var users' := ChangePassword(users, id, current, newHash, verify, now).1;
      assert users'[i.value].hashedPassword == newHash;
      assert forall j :: 0 <= j < i.value ==> users'[j] == users[j];
    }
  }

  // ---- deactivate_user / activate_user / verify_user_email ----

  datatype Flag = ActiveFlag | VerifiedFlag

  /** Sets one account flag; returns the answer and the new table. */
  function SetFlag(users: seq<User>, id: int, flag: Flag, value: bool, now: Instant): (Result<bool, ServiceError>, seq<User>) {
    var i := IndexOfId(users, id);
    if i.None? then (Err(Http(UserNotFound)), users)
    else
      var u := users[i.value];
      var u' := match flag
        case ActiveFlag => u.(isActive := value, updatedAt := Some(now))
        case VerifiedFlag => u.(isVerified := value, updatedAt := Some(now));
      (Ok(true), users[i.value := u'])
  }

  /** A missing id is a 404 and changes nothing; otherwise exactly that
      row's flag is set (with `updated_at`), and a deactivated account can
      no longer log in. */
  lemma SetFlagRules(users: seq<User>, id: int, flag: Flag, value: bool, now: Instant,
                     login: string, password: string, verify: (string, string) -> bool)
    requires TableInvariant(users)
    ensures var (r, users') := SetFlag(users, id, flag, value, now);
      && ((forall u :: u in users ==> u.id != id) <==> r.Err?)
      && (r.Err? ==> r.error == Http(UserNotFound) && users' == users)
      && |users'| == |users|
      && (forall j :: 0 <= j < |users| ==> users'[j].id == users[j].id)
      && (forall j :: 0 <= j < |users| && users[j].id != id ==> users'[j] == users[j])
      && (forall j :: 0 <= j < |users| && users[j].id == id ==>
            users'[j] == (if flag == ActiveFlag then users[j].(isActive := value, updatedAt := Some(now))
                          else users[j].(isVerified := value, updatedAt := Some(now))))
    ensures var c := ClashIndex(users, Lower(login), Lower(login));
      flag == ActiveFlag && !value && c.Some? && users[c.value].id == id
      ==> Authenticate(SetFlag(users, id, flag, value, now).1, login, password, verify, now).0 == Err(Http(AccountDeactivated))
  {
    var i := IndexOfId(users, id);
    if i.Some? {
      forall j | 0 <= j < |users| && users[j].id == id ensures j == i.value {
        if j < i.value { } else if j > i.value { }
      }
      var users' := SetFlag(users, id, flag, value, now).1;
      var key := Lower(login);
      var c := ClashIndex(users, key, key);
      if flag == ActiveFlag && !value && c.Some? && users[c.value].id == id {
        assert c.value == i.value;
        var k := ClashIndex(users', key, key);
        assert users'[c.value].username == key || users'[c.value].email == key;
        assert k.Some? && k.value <= c.value;
      }
    }
  }

  // ---- get_users_paginated / search_users ----

  /** The filters of `get_users_paginated`: the role when it is truthy,
      and activity when `active_only`. */
  predicate Listed(u: User, role: Option<string>, activeOnly: bool) {
    (role.Some? && role.value != "" ==> u.role == role.value) && (activeOnly ==> u.isActive)
  }

  /** `get_users_paginated`: one page of the matching rows, newest first,
      and the number of matching rows. */
  function Paginate(users: seq<User>, page: int, pageSize: int, role: Option<string>, activeOnly: bool)
    : (seq<User>, nat)
  {
    var matches := Filter(users, (u: User) => Listed(u, role, activeOnly));
    (PageSlice(NewestFirst(matches), PageOffset(page, pageSize), pageSize), |matches|)
  }

  /** The ilike filters of `search_users`, with the term already lower-cased. */
  predicate SearchHit(u: User, term: string) {
    || Contains(Lower(u.username), term) || Contains(Lower(u.email), term)
    || Contains(Lower(u.firstName), term) || Contains(Lower(u.lastName), term)
    || Contains(Lower(u.firstName + " " + u.lastName), term)
  }

  /** `search_users`: one page of the hits, newest first, and the hit count. */
  function Search(users: seq<User>, term: string, page: int, pageSize: int): (seq<User>, nat) {
    var t := Lower(term);
    var matches := Filter(users, (u: User) => SearchHit(u, t));
    (PageSlice(NewestFirst(matches), PageOffset(page, pageSize), pageSize), |matches|)
  }

  /** Every listed row passes the filters; the total counts all of them;
      a page of a positive size holds at most that many rows. */
  lemma PaginateRules(users: seq<User>, page: int, pageSize: int, role: Option<string>, activeOnly: bool)
    requires page >= 1 && pageSize >= 1
    ensures var (rows, total) := Paginate(users, page, pageSize, role, activeOnly);
      && |rows| <= pageSize && total <= |users|
      && (forall u :: u in rows ==> u in users && Listed(u, role, activeOnly))
      && total == |Filter(users, (u: User) => Listed(u, role, activeOnly))|
      && (rows != [] <==> page <= PageCount(total, pageSize))
  {
    var matches := Filter(users, (u: User) => Listed(u, role, activeOnly));
    PageOfMatches(users, (u: User) => Listed(u, role, activeOnly), page, pageSize);
    PageNonEmptyIffCounted(NewestFirst(matches), page, pageSize);
  }


  /** Every search hit contains the lower-cased term in a name, the
      username, the address or the full name; the total counts all hits. */
  lemma SearchRules(users: seq<User>, term: string, page: int, pageSize: int)
    requires page >= 1 && pageSize >= 1
    ensures var (rows, total) := Search(users, term, page, pageSize);
      && |rows| <= pageSize && total <= |users|
      && (forall u :: u in rows ==> u in users && SearchHit(u, Lower(term)))
      && total == |Filter(users, (u: User) => SearchHit(u, Lower(term)))|
      && (forall u :: u in users && SearchHit(u, Lower(term)) && page == 1 && total <= pageSize ==> u in rows)
  {
    var t := Lower(term);
    PageOfMatches(users, (u: User) => SearchHit(u, t), page, pageSize);
    if page == 1 && |Filter(users, (u: User) => SearchHit(u, t))| <= pageSize {
      FirstPageHoldsAll(users, (u: User) => SearchHit(u, t), pageSize);
    }
  }


  // ---- the service over its session ----

  /** The `setattr` loop of `update_user` over the sent items; `nulled`
      records whether a required column was set to `null`. */
  method ApplySetItems(u: User, items: seq<(UserField, Option<string>)>) returns (row: User, nulled: bool)
    ensures row == ApplyItems(u, items)
    ensures nulled == NullsRequired(items)
  {
    row := u;
    nulled := false;
    var k := 0;
    while k < |items|
      invariant 0 <= k <= |items|
      invariant ApplyItems(row, items[k..]) == ApplyItems(u, items)
      invariant nulled <==> NullsRequired(items[..k])
    {
      var (f, v) := items[k];
      if Required(f) && v.None? {
        nulled := true;
      }
      assert items[k..][1..] == items[k + 1..];
      assert items[..k + 1] == items[..k] + [items[k]];
      row := SetAttr(row, f, v);
      k := k + 1;
    }
    assert items[..k] == items;
  }

  /** `UserService` bound to a session: the `users` table in insertion
      order. Password hashing and checking are passed in, and the clock is
      the `now` parameter. */
  class UserService {
    var users: seq<User>

    ghost predicate Valid()
      reads this
    {
      TableInvariant(users)
    }

    constructor (rows: seq<User>)
      requires TableInvariant(rows)
      ensures users == rows && Valid()
    {
      users := rows;
    }

    method CreateUser(data: NewUser, hash: string, now: Instant) returns (r: Result<User, ServiceError>)
      requires Valid()
      modifies this
      ensures r == Create(old(users), data, hash, now)
      ensures users == if r.Ok? then old(users) + [r.value] else old(users)
      ensures Valid()
    {
      r := Create(users, data, hash, now);
      if r.Ok? {
        CreateKeepsInvariant(users, data, hash, now);
        users := users + [r.value];
      }
    }

    method AuthenticateUser(login: string, password: string, verify: (string, string) -> bool, now: Instant)
      returns (r: Result<Option<User>, ServiceError>)
      requires Valid()
      modifies this
      ensures (r, users) == Authenticate(old(users), login, password, verify, now)
      ensures Valid()
    {
      AuthenticateKeepsInvariant(users, login, password, verify, now);
      var key := Lower(login);
      var i := ClashIndex(users, key, key);
      if i.None? {
        return Ok(None);
      }
      var u := users[i.value];
      if !u.isActive {
        return Err(Http(AccountDeactivated));
      }
      if !verify(password, u.hashedPassword) {
        return Ok(None);
      }
      u := u.(lastLogin := Some(now));
      users := users[i.value := u];
      r := Ok(Some(u));
    }

    /** `update_user`: the `setattr` loop runs over the sent fields in
        order; a `null` written to a required column, or an address another
        row holds, makes the commit fail and the session roll back. */
    method UpdateUser(id: int, p: UserPatch, now: Instant) returns (r: Result<User, ServiceError>)
      requires Valid()
      modifies this
      ensures (r, users) == Update(old(users), id, p, now)
      ensures Valid()
    {
      UpdateKeepsInvariant(users, id, p, now);
      var i := IndexOfId(users, id);
      if i.None? {
        return Err(Http(UserNotFound));
      }
      var u := users[i.value];
      if ChangesEmail(p, u) && EmailHolder(users, Lower(p.email.value.value), id).Some? {
        return Err(Http(EmailTakenByOther));
      }
      var row, nulled := ApplySetItems(u, SetItems(p));
      if nulled {
        return Err(DatabaseFailure("Failed to update user"));
      }
      row := row.(updatedAt := Some(now));
      var committed := users[i.value := row];
      if !UniqueEmails(committed) {
        return Err(DatabaseFailure("Failed to update user"));
      }
      users := committed;
      r := Ok(row);
    }

    method ChangeUserPassword(id: int, current: string, newHash: string, verify: (string, string) -> bool, now: Instant)
      returns (r: Result<bool, ServiceError>)
      requires Valid()
      modifies this
      ensures (r, users) == ChangePassword(old(users), id, current, newHash, verify, now)
      ensures Valid()
    {
      var i := IndexOfId(users, id);
      if i.None? {
        return Err(Http(UserNotFound));
      }
      if !verify(current, users[i.value].hashedPassword) {
        return Err(Http(WrongCurrentPassword));
      }
      users := users[i.value := users[i.value].(hashedPassword := newHash, updatedAt := Some(now))];
      r := Ok(true);
    }

    method DeactivateUser(id: int, now: Instant) returns (r: Result<bool, ServiceError>)
      requires Valid()
      modifies this
      ensures (r, users) == SetFlag(old(users), id, ActiveFlag, false, now)
      ensures Valid()
    {
      r := SetAccountFlag(id, ActiveFlag, false, now);
    }

    method ActivateUser(id: int, now: Instant) returns (r: Result<bool, ServiceError>)
      requires Valid()
      modifies this
      ensures (r, users) == SetFlag(old(users), id, ActiveFlag, true, now)
      ensures Valid()
    {
      r := SetAccountFlag(id, ActiveFlag, true, now);
    }

    method VerifyUserEmail(id: int, now: Instant) returns (r: Result<bool, ServiceError>)
      requires Valid()
      modifies this
      ensures (r, users) == SetFlag(old(users), id, VerifiedFlag, true, now)
      ensures Valid()
    {
      r := SetAccountFlag(id, VerifiedFlag, true, now);
    }

    method SetAccountFlag(id: int, flag: Flag, value: bool, now: Instant) returns (r: Result<bool, ServiceError>)
      requires Valid()
      modifies this
      ensures (r, users) == SetFlag(old(users), id, flag, value, now)
      ensures Valid()
    {
      var i := IndexOfId(users, id);
      if i.None? {
        return Err(Http(UserNotFound));
      }
      var u := users[i.value];
      if flag == ActiveFlag {
        u := u.(isActive := value, updatedAt := Some(now));
      } else {
        u := u.(isVerified := value, updatedAt := Some(now));
      }
      users := users[i.value := u];
      r := Ok(true);
    }
  }
}
