/** Tokens and role checks. JWT signing and decoding are not modelled: a
    token is its payload, and decoding is the `decoded` parameter, `None`
    when the signature, the format or the expiry is rejected. Password
    hashing is the `verify`/`hash` parameters of the services. */
module AuthHandler {
  import opened Wrappers

  /** A JSON value in a token's payload or in the current-user dict. */
  datatype Value = Str(s: string) | Int(i: int) | Time(t: Instant) | Null

  type Payload = map<string, Value>

  const AccessTokenExpireMinutes: int := 30
  const MicrosPerMinute: int := 60 * MicrosPerSecond
  const DefaultRole := "user"
  const CredentialsRejected := HttpError(401, "Could not validate credentials")
  const NotPermitted := HttpError(403, "Operation not permitted")

  /** The allowed lists of `admin_required`, `user_required` and
      `healthcare_worker_required`. */
  const AdminRoles: seq<string> := ["admin"]
  const UserRoles: seq<string> := ["user", "admin"]
  const HealthcareWorkerRoles: seq<string> := ["healthcare_worker", "admin"]

  /** `d.get(key, default)`: a key present with a `null` value gives the
      `null`, not the default. */
  function Get(d: Payload, key: string, default: Value): (v: Value)
    ensures key in d ==> v == d[key]
    ensures key !in d ==> v == default
  {
    if key in d then d[key] else default
  }

  /** The lifetime `create_access_token` gives a token: `expires_delta`
      when it is truthy (a non-zero duration), else 30 minutes. */
  function Lifetime(delta: Option<int>): int {
    if delta.Some? && delta.value != 0 then delta.value else AccessTokenExpireMinutes * MicrosPerMinute
  }

  /** `create_access_token`: a copy of `data` with `exp` set; the caller's
      dict is a value and stays as it was. */
  function CreateAccessToken(data: Payload, delta: Option<int>, now: Instant): (token: Payload)
    ensures "exp" in token && token["exp"] == Time(now + Lifetime(delta))
    ensures forall k :: k in token <==> k in data || k == "exp"
    ensures forall k :: k in data && k != "exp" ==> token[k] == data[k]
  {
    data["exp" := Time(now + Lifetime(delta))]
  }

  /** A token lives 30 minutes unless a non-zero lifetime is asked for. */
  lemma LifetimeRules(delta: Option<int>)
    ensures delta.None? || delta == Some(0) ==> Lifetime(delta) == 1_800_000_000
    ensures delta.Some? && delta.value != 0 ==> Lifetime(delta) == delta.value
  {
  }

  /** `get_current_user`: a rejected token or a missing (or `null`) `sub`
      claim is a 401; otherwise the four claims, the role defaulting to
      "user" when the token has none. */
  function GetCurrentUser(decoded: Option<Payload>): (r: Result<Payload, HttpError>)
    ensures r.Err? <==> decoded.None? || Get(decoded.value, "sub", Null) == Null
    ensures r.Err? ==> r.error == CredentialsRejected
    ensures r.Ok? ==>
      && r.value.Keys == {"user_id", "username", "role", "email"}
      && r.value["user_id"] == decoded.value["sub"]
      && r.value["username"] == Get(decoded.value, "username", Null)
      && r.value["role"] == Get(decoded.value, "role", Str(DefaultRole))
      && r.value["email"] == Get(decoded.value, "email", Null)
  {
    if decoded.None? then Err(CredentialsRejected)
    else
      var p := decoded.value;
      var sub := Get(p, "sub", Null);
      if sub == Null then Err(CredentialsRejected)
      else Ok(map["user_id" := sub, "username" := Get(p, "username", Null),
                  "role" := Get(p, "role", Str(DefaultRole)), "email" := Get(p, "email", Null)])
  }

  /** `RoleChecker.__call__`: the user passes iff their role, "user" when
      the dict has none, is in the allowed list; otherwise 403. */
  function CheckRole(allowed: seq<string>, user: Payload): (r: Result<Payload, HttpError>)
    ensures r.Ok? <==> exists i :: 0 <= i < |allowed| && Get(user, "role", Str(DefaultRole)) == Str(allowed[i])
    ensures r.Ok? ==> r.value == user
    ensures r.Err? ==> r.error == NotPermitted
  {
    var role := Get(user, "role", Str(DefaultRole));
    if role.Str? && role.s in allowed then Ok(user) else Err(NotPermitted)
  }

  /** A role checker used as a dependency: the token is read first, then
      the role checked. */
  function Authorize(allowed: seq<string>, decoded: Option<Payload>): Result<Payload, HttpError> {
    var u := GetCurrentUser(decoded);
    if u.Err? then u else CheckRole(allowed, u.value)
  }

  /** Which roles each checker admits: an admin passes all three; a user
      passes only `user_required`; a healthcare worker is refused by
      `user_required` and by `admin_required`. */
  lemma RoleCheckers(user: Payload, role: string)
    requires "role" in user && user["role"] == Str(role)
    ensures CheckRole(AdminRoles, user).Ok? <==> role == "admin"
    ensures CheckRole(UserRoles, user).Ok? <==> role == "user" || role == "admin"
    ensures CheckRole(HealthcareWorkerRoles, user).Ok? <==> role == "healthcare_worker" || role == "admin"
  {
    if role == "admin" {
      assert Str(role) == Str(AdminRoles[0]);
      assert Str(role) == Str(UserRoles[1]);
      assert Str(role) == Str(HealthcareWorkerRoles[1]);
    }
    if role == "user" {
      assert Str(role) == Str(UserRoles[0]);
    }
    if role == "healthcare_worker" {
      assert Str(role) == Str(HealthcareWorkerRoles[0]);
    }
  }

  /** A token with a subject and no role claim acts as a plain user: it
      passes `user_required` and is refused by `admin_required`. A token
      whose role claim is `null` passes no checker. */
  lemma MissingRoleIsUser(p: Payload)
    requires "sub" in p && p["sub"] != Null
    ensures "role" !in p ==> Authorize(UserRoles, Some(p)).Ok? && Authorize(AdminRoles, Some(p)) == Err(NotPermitted)
    ensures "role" in p && p["role"] == Null ==> Authorize(UserRoles, Some(p)) == Err(NotPermitted)
  {
    var u := GetCurrentUser(Some(p));
    if "role" !in p {
      RoleCheckers(u.value, "user");
    }
  }

  /** A rejected token, or one without a subject, is a 401 before any role
      is looked at. */
  lemma NoSubjectIsUnauthorized(allowed: seq<string>, p: Payload)
    requires "sub" !in p || p["sub"] == Null
    ensures Authorize(allowed, Some(p)) == Err(CredentialsRejected)
    ensures Authorize(allowed, None) == Err(CredentialsRejected)
  {
  }
}
