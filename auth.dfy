/**
 * The credentials sign-in (`authorize`) and the two session callbacks (`jwt`,
 * `session`). The login reply, the token and the session are loose JSON records.
 */
module Auth {
  import opened Common

  /** A JSON-like JavaScript value as the callbacks see it. */
  datatype Value =
    | Undefined
    | Null
    | Str(s: string)
    | Num(n: int)
    | Bool(b: bool)
    | Arr(items: seq<Value>)
    | Obj(fields: map<string, Value>)

  type Record = map<string, Value>

  predicate Nullish(v: Value)
  {
    v.Undefined? || v.Null?
  }

  /** JavaScript truthiness: `undefined`, `null`, `""`, `0` and `false` are falsy. */
  predicate JsTruthy(v: Value)
  {
    match v
    case Undefined => false
    case Null => false
    case Str(s) => s != ""
    case Num(n) => n != 0
    case Bool(b) => b
    case Arr(_) => true
    case Obj(_) => true
  }

  /** `a ?? b`. */
  function OrElse(a: Value, b: Value): (r: Value)
    ensures !Nullish(a) ==> r == a
    ensures Nullish(a) ==> r == b
  {
    if Nullish(a) then b else a
  }

  /** `v.k` (and `v?.k`): a field of an object, `undefined` for anything else. */
  function Field(v: Value, k: string): Value
  {
    if v.Obj? && k in v.fields then v.fields[k] else Undefined
  }

  /** `r.k` on a record: `undefined` when the key is missing. */
  function Lookup(r: Record, k: string): Value
  {
    if k in r then r[k] else Undefined
  }

  // ---------------------------------------------------------------------------
  // authorize

  /** The submitted credentials (the whole record is `None` when none were sent). */
  datatype Credentials = Credentials(phone: Value, password: Value)

  /** The record `authorize` hands to NextAuth on success. */
  datatype SignedInUser = SignedInUser(
    id: Value, name: Value, email: Value, roles: Value, accessToken: Value, refreshToken: Value)

  /** Both credentials are present and non-empty. */
  predicate CredentialsGiven(creds: Option<Credentials>)
  {
    creds.Some? && JsTruthy(creds.value.phone) && JsTruthy(creds.value.password)
  }

  /** `user.id ?? user._id ?? user.userId`. */
  function UserId(user: Value): Value
  {
    OrElse(Field(user, "id"), OrElse(Field(user, "_id"), Field(user, "userId")))
  }

  /** `user.roles ?? [user.role ?? "USER"]`. */
  function UserRoles(user: Value): (r: Value)
    ensures !Nullish(r)
    ensures !Nullish(Field(user, "roles")) ==> r == Field(user, "roles")
    ensures Nullish(Field(user, "roles")) && !Nullish(Field(user, "role")) ==> r == Arr([Field(user, "role")])
    ensures Nullish(Field(user, "roles")) && Nullish(Field(user, "role")) ==> r == Arr([Str("USER")])
  {
    OrElse(Field(user, "roles"), Arr([OrElse(Field(user, "role"), Str("USER"))]))
  }

  /**
   * `authorize(credentials)`. `reply` is the body of the `/auth/login` response, asked
   * for only when both credentials are given; a failed request is not caught and is not
   * part of this model.
   */
  function Authorize(creds: Option<Credentials>, reply: Value): (r: Option<SignedInUser>)
    ensures !CredentialsGiven(creds) ==> r == None
    ensures CredentialsGiven(creds) ==>
              (r.Some? <==> JsTruthy(Field(reply, "accessToken")) && JsTruthy(Field(reply, "user")))
    ensures r.Some? ==>
              var user := Field(reply, "user");
              && r.value.id == UserId(user)
              && r.value.name == Field(user, "name")
              && r.value.email == (if Nullish(Field(user, "phone")) then Undefined else Field(user, "phone"))
              && r.value.roles == UserRoles(user)
              && r.value.accessToken == Field(reply, "accessToken")
              && r.value.refreshToken == Field(reply, "refreshToken")
  {
    if !CredentialsGiven(creds) then None
    else if !JsTruthy(Field(reply, "accessToken")) || !JsTruthy(Field(reply, "user")) then None
    else
      var user := Field(reply, "user");
      Some(SignedInUser(
        UserId(user),
        Field(user, "name"),
        OrElse(Field(user, "phone"), Undefined),
        UserRoles(user),
        Field(reply, "accessToken"),
        Field(reply, "refreshToken")))
  }

  /** Missing credentials are refused before the backend is asked: the reply plays no part. */
  lemma RefusalIgnoresReply(creds: Option<Credentials>, reply1: Value, reply2: Value)
    requires !CredentialsGiven(creds)
    ensures Authorize(creds, reply1) == Authorize(creds, reply2) == None
  {
  }

  /** The id is the first present one of `id`, `_id`, `userId`. */
  lemma UserIdPrecedence(user: Value)
    ensures !Nullish(Field(user, "id")) ==> UserId(user) == Field(user, "id")
    ensures Nullish(Field(user, "id")) && !Nullish(Field(user, "_id")) ==> UserId(user) == Field(user, "_id")
    ensures Nullish(Field(user, "id")) && Nullish(Field(user, "_id")) ==> UserId(user) == Field(user, "userId")
  {
  }

  /** A backend reply with `_id` and `roles` and no `id`. */
  lemma SignInExample()
    ensures
      var reply := Obj(map[
        "accessToken" := Str("tok1"),
        "user" := Obj(map["_id" := Str("u1"), "phone" := Str("01711111111"), "roles" := Arr([Str("admin")])])]);
      Authorize(Some(Credentials(Str("01711111111"), Str("secret1"))), reply)
        == Some(SignedInUser(Str("u1"), Undefined, Str("01711111111"), Arr([Str("admin")]), Str("tok1"), Undefined))
  {
    var user := Obj(map["_id" := Str("u1"), "phone" := Str("01711111111"), "roles" := Arr([Str("admin")])]);
    assert Field(user, "id") == Undefined;
    assert Field(user, "_id") == Str("u1");
  }

  // ---------------------------------------------------------------------------
  // The jwt and session callbacks

  /** The `trigger` NextAuth passes to `jwt`. */
  datatype Trigger = SignIn | SignUp | Update | NoTrigger

  /** The keys `jwt` copies from a signed-in user into the token. */
  const IdentityKeys: set<string> := {"userId", "roles", "accessToken", "refreshToken"}

  /** `jwt({ token, user, trigger, session })`: on sign-in the user's identity is copied into
      the token; on an update with a session, the session's keys are merged over it. */
  function Jwt(token: Record, user: Option<SignedInUser>, trigger: Trigger, session: Option<Record>): (r: Record)
    ensures user.Some? ==>
              var merged := trigger == Update && session.Some?;
              && (!(merged && "userId" in session.value) ==> Lookup(r, "userId") == user.value.id)
              && (!(merged && "roles" in session.value) ==> Lookup(r, "roles") == user.value.roles)
              && (!(merged && "accessToken" in session.value) ==> Lookup(r, "accessToken") == user.value.accessToken)
              && (!(merged && "refreshToken" in session.value) ==> Lookup(r, "refreshToken") == user.value.refreshToken)
    ensures trigger == Update && session.Some? ==> forall k :: k in session.value ==> k in r && r[k] == session.value[k]
    ensures forall k ::
              (k in token && !(user.Some? && k in IdentityKeys) &&
               !(trigger == Update && session.Some? && k in session.value))
              ==> k in r && r[k] == token[k]
    ensures forall k :: k in r ==>
              k in token || (user.Some? && k in IdentityKeys) || (trigger == Update && session.Some? && k in session.value)
    ensures user.None? && !(trigger == Update && session.Some?) ==> r == token
  {
    var t := if user.Some? then
               token["userId" := user.value.id]["roles" := user.value.roles]
                    ["accessToken" := user.value.accessToken]["refreshToken" := user.value.refreshToken]
             else token;
    if trigger == Update && session.Some? then t + session.value else t
  }

  /** The `user` entry of the session. */
  function SessionUser(token: Record, sessionUser: Value): (r: Record)
    ensures Lookup(r, "id") == OrElse(Lookup(token, "userId"), Str(""))
    ensures Lookup(r, "roles") == OrElse(Lookup(token, "roles"), Arr([Str("USER")]))
    ensures sessionUser.Obj? ==> forall k :: k in sessionUser.fields && k != "id" && k != "roles" ==>
                                   k in r && r[k] == sessionUser.fields[k]
    ensures forall k :: k in r ==> k == "id" || k == "roles" || (sessionUser.Obj? && k in sessionUser.fields)
  {
    var base := if sessionUser.Obj? then sessionUser.fields else map[];
    base["id" := OrElse(Lookup(token, "userId"), Str(""))]["roles" := OrElse(Lookup(token, "roles"), Arr([Str("USER")]))]
  }

  /** `session({ session, token })`: `user` is rebuilt with the id and roles from the token,
      the access token is copied across, and nothing else changes. */
  function Session(session: Record, token: Record): (r: Record)
    ensures "user" in r && r["user"].Obj? && r["user"].fields == SessionUser(token, Lookup(session, "user"))
    ensures Lookup(r, "accessToken") == Lookup(token, "accessToken")
    ensures forall k :: k in session && k != "user" && k != "accessToken" ==> k in r && r[k] == session[k]
    ensures forall k :: k in r ==> k in session || k == "user" || k == "accessToken"
  {
    session["user" := Obj(SessionUser(token, Lookup(session, "user")))]["accessToken" := Lookup(token, "accessToken")]
  }

  /** A fresh sign-in carries the backend's identity through `authorize`, `jwt` and
      `session`: the session user gets the id (or `""`), exactly the roles `authorize`
      settled on, and the session the access token of the reply. */
  lemma SignInReachesSession(creds: Option<Credentials>, reply: Value, token: Record, session: Record)
    requires Authorize(creds, reply).Some?
    ensures
      var u := Authorize(creds, reply).value;
      var t := Jwt(token, Some(u), SignIn, None);
      var s := Session(session, t);
      && Lookup(s["user"].fields, "id") == OrElse(UserId(Field(reply, "user")), Str(""))
      && Lookup(s["user"].fields, "roles") == UserRoles(Field(reply, "user"))
      && Lookup(s, "accessToken") == Field(reply, "accessToken")
  {
    var u := Authorize(creds, reply).value;
    var t := Jwt(token, Some(u), SignIn, None);
    assert Lookup(t, "roles") == u.roles;
    assert !Nullish(u.roles);
  }
}
