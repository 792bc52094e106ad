/** The client's session slice: the signed-in user, the token, the loading
    flag and the last error, kept in memory and mirrored in two browser
    cookies, `currentUser` (the user as JSON) and `token`. The state is
    read back from the cookies when the page loads. */
module Session {
  import opened Values

  const CurrentUserCookie := "currentUser"
  const TokenCookie := "token"

  /** `{ expires: 30 }` on every cookie the slice writes. */
  const ExpiresDays := 30

  /** A browser cookie: its text and the lifetime it was set with, in days
      (`None` for one set without `expires`). */
  datatype Cookie = Cookie(value: string, expires: Option<nat>)

  /** The cookie store: name to cookie. */
  type Jar = map<string, Cookie>

  /** `Cookies.get(name)`: the text, or nothing when there is no such cookie. */
  function CookieGet(jar: Jar, name: string): (r: Option<string>)
    ensures r.Some? <==> name in jar
    ensures r.Some? ==> r.value == jar[name].value
  {
    if name in jar then Some(jar[name].value) else None
  }

  /** `JSON.stringify` drops the properties whose value is `undefined`. */
  function JsonView(o: Obj): (r: Obj)
    ensures forall k :: Prop(r, k) == Prop(o, k)
    ensures forall k :: k in r ==> r[k] != Undefined
  {
    map k | k in o && o[k] != Undefined :: o[k]
  }

  /** `JSON.stringify` and `JSON.parse` on the objects the slice stores;
      `parse` yields nothing when the text is not the JSON of an object. */
  datatype Json = Json(stringify: Obj -> string, parse: string -> Option<Obj>)

  /** The text of an object is never empty and parses back to the object
      without its `undefined` properties. */
  ghost predicate RoundTrips(json: Json)
  {
    forall o :: json.stringify(o) != "" && json.parse(json.stringify(o)) == Some(JsonView(o))
  }

  /** The four fields of the slice; `currentUser` is `None` for `null`. */
  datatype State = State(currentUser: Option<Obj>, token: JsValue, isLoading: bool, error: JsValue)

  /** Why the slice cannot be built: `JSON.parse` throws on the text of the
      `currentUser` cookie while the module loads. */
  datatype LoadError = InvalidJson(text: string)

  /** `savedUser?.token || Cookies.get('token') || null` */
  function RestoredToken(jar: Jar, savedUser: Option<Obj>): (t: JsValue)
    ensures savedUser.Some? && Truthy(Prop(savedUser.value, "token")) ==> t == Prop(savedUser.value, "token")
    ensures !(savedUser.Some? && Truthy(Prop(savedUser.value, "token"))) ==>
              t == (if Given(CookieGet(jar, TokenCookie)) then Str(jar[TokenCookie].value) else Null)
  {
    if savedUser.Some? && Truthy(Prop(savedUser.value, "token")) then Prop(savedUser.value, "token")
    else
      var fromCookie := CookieGet(jar, TokenCookie);
      if Given(fromCookie) then Str(fromCookie.value) else Null
  }

  /** The initial state: the user parsed from a non-empty `currentUser`
      cookie, or `null`; the token from the user, else from the `token`
      cookie, else `null`; not loading, no error. */
  function InitialState(jar: Jar, json: Json): (r: Result<State, LoadError>)
    ensures r.Err? <==> Given(CookieGet(jar, CurrentUserCookie)) && json.parse(jar[CurrentUserCookie].value).None?
    ensures r.Ok? ==> !r.value.isLoading && r.value.error == Null
    ensures r.Ok? ==>
              r.value.currentUser == (if Given(CookieGet(jar, CurrentUserCookie)) then json.parse(jar[CurrentUserCookie].value) else None)
    ensures r.Ok? ==> r.value.token == RestoredToken(jar, r.value.currentUser)
  {
    var text := CookieGet(jar, CurrentUserCookie);
    if Given(text) then
      match json.parse(text.value)
      case None => Err(InvalidJson(text.value))
      case Some(savedUser) => Ok(State(Some(savedUser), RestoredToken(jar, Some(savedUser)), false, Null))
    else Ok(State(None, RestoredToken(jar, None), false, Null))
  }

  /** `{ ...user, token }` */
  function WithToken(user: Obj, token: string): (r: Obj)
    ensures Prop(r, "token") == Str(token)
    ensures forall k :: k != "token" ==> Prop(r, k) == Prop(user, k)
  {
    user["token" := Str(token)]
  }

  /** `{ ...state.currentUser, ...payload, token: payload.token || token }`:
      every property of the payload wins, the other properties of the
      current user are kept, and the token is the payload's when truthy,
      else the current user's. */
  function Merged(current: Option<Obj>, payload: Obj): (r: Obj)
    ensures forall k :: k != "token" && k in payload ==> Prop(r, k) == payload[k]
    ensures forall k :: k != "token" && k !in payload && current.Some? ==> Prop(r, k) == Prop(current.value, k)
    ensures forall k :: k != "token" && k !in payload && current.None? ==> Prop(r, k) == Undefined
    ensures Truthy(Prop(payload, "token")) ==> Prop(r, "token") == Prop(payload, "token")
    ensures !Truthy(Prop(payload, "token")) ==>
              Prop(r, "token") == (if current.Some? then Prop(current.value, "token") else Undefined)
  {
    var previousToken := if current.Some? then Prop(current.value, "token") else Undefined;
    var base: Obj := if current.Some? then current.value else map[];
    (base + payload)["token" := if Truthy(Prop(payload, "token")) then Prop(payload, "token") else previousToken]
  }

  /** The cookies after `signInSuccess`: the user with its token as JSON,
      and the token itself, both for thirty days. */
  function SignInCookies(jar: Jar, json: Json, user: Obj, token: string): (r: Jar)
    ensures r.Keys == jar.Keys + {CurrentUserCookie, TokenCookie}
    ensures r[CurrentUserCookie] == Cookie(json.stringify(WithToken(user, token)), Some(ExpiresDays))
    ensures r[TokenCookie] == Cookie(token, Some(ExpiresDays))
    ensures forall n :: n in jar && n != CurrentUserCookie && n != TokenCookie ==> r[n] == jar[n]
  {
    jar[CurrentUserCookie := Cookie(json.stringify(WithToken(user, token)), Some(ExpiresDays))]
       [TokenCookie := Cookie(token, Some(ExpiresDays))]
  }

  /** The cookies after `signOut` and `deleteUserSuccess`. */
  function SignOutCookies(jar: Jar): (r: Jar)
    ensures r.Keys == jar.Keys - {CurrentUserCookie, TokenCookie}
    ensures forall n :: n in r ==> r[n] == jar[n]
  {
    jar - {CurrentUserCookie, TokenCookie}
  }

  /** The slice. Every reducer changes only the fields and cookies it
      names; the rest are left as they were. */
  class UserSlice {
    const json: Json
    var currentUser: Option<Obj>
    var token: JsValue
    var isLoading: bool
    var error: JsValue
    var cookies: Jar

    function Snapshot(): State
      reads this
    {
      State(currentUser, token, isLoading, error)
    }

    /** The store is created once, from the cookies present at load time. */
    constructor (jar: Jar, json: Json)
      requires InitialState(jar, json).Ok?
      ensures Snapshot() == InitialState(jar, json).value
      ensures cookies == jar && this.json == json
    {
      this.json := json;
      var initial := InitialState(jar, json).value;
      currentUser := initial.currentUser;
      token := initial.token;
      isLoading := initial.isLoading;
      error := initial.error;
      cookies := jar;
    }

    method SignInStart()
      modifies this
      ensures isLoading && error == Null
      ensures currentUser == old(currentUser) && token == old(token) && cookies == old(cookies)
    {
      isLoading := true;
      error := Null;
    }

    /** `signInSuccess({ user, token })` */
    method SignInSuccess(user: Obj, payloadToken: string)
      modifies this
      ensures currentUser == Some(WithToken(user, payloadToken)) && token == Str(payloadToken)
      ensures !isLoading && error == Null
      ensures cookies == SignInCookies(old(cookies), json, user, payloadToken)
      ensures Prop(currentUser.value, "token") == token
    {
      var userWithToken := WithToken(user, payloadToken);
      isLoading := false;
      currentUser := Some(userWithToken);
      token := Str(payloadToken);
      error := Null;
      cookies := cookies[CurrentUserCookie := Cookie(json.stringify(userWithToken), Some(ExpiresDays))];
      cookies := cookies[TokenCookie := Cookie(payloadToken, Some(ExpiresDays))];
    }

    method SignInFailure(payload: JsValue)
      modifies this
      ensures !isLoading && error == payload
      ensures currentUser == old(currentUser) && token == old(token) && cookies == old(cookies)
    {
      isLoading := false;
      error := payload;
    }

    /** `signOut` forgets the user and the token but leaves the loading
      flag and the error as they were. */
    method SignOut()
      modifies this
      ensures currentUser.None? && token == Null
      ensures isLoading == old(isLoading) && error == old(error)
      ensures cookies == SignOutCookies(old(cookies))
    {
      currentUser := None;
      token := Null;
      cookies := cookies - {CurrentUserCookie};
      cookies := cookies - {TokenCookie};
    }

    method UpdateUserStart()
      modifies this
      ensures isLoading
      ensures currentUser == old(currentUser) && token == old(token) && error == old(error) && cookies == old(cookies)
    {
      isLoading := true;
    }

    /** `updateUserSuccess(payload)`: the merged user replaces the current
      one and only the `currentUser` cookie is rewritten; `token` and its
      cookie stay as they were. */
    method UpdateUserSuccess(payload: Obj)
      modifies this
      ensures currentUser == Some(Merged(old(currentUser), payload))
      ensures token == old(token) && !isLoading && error == Null
      ensures cookies == old(cookies)[CurrentUserCookie := Cookie(json.stringify(Merged(old(currentUser), payload)), Some(ExpiresDays))]
    {
      var updatedUser := Merged(currentUser, payload);
      currentUser := Some(updatedUser);
      isLoading := false;
      error := Null;
      cookies := cookies[CurrentUserCookie := Cookie(json.stringify(updatedUser), Some(ExpiresDays))];
    }

    method UpdateUserFailure(payload: JsValue)
      modifies this
      ensures !isLoading && error == payload
      ensures currentUser == old(currentUser) && token == old(token) && cookies == old(cookies)
    {
      isLoading := false;
      error := payload;
    }

    method DeleteUserStart()
      modifies this
      ensures isLoading
      ensures currentUser == old(currentUser) && token == old(token) && error == old(error) && cookies == old(cookies)
    {
      isLoading := true;
    }

    /** `deleteUserSuccess` resets all four fields and removes both cookies. */
    method DeleteUserSuccess()
      modifies this
      ensures Snapshot() == State(None, Null, false, Null)
      ensures cookies == SignOutCookies(old(cookies))
    {
      currentUser := None;
      token := Null;
      isLoading := false;
      error := Null;
      cookies := cookies - {CurrentUserCookie};
      cookies := cookies - {TokenCookie};
    }

    method DeleteUserFailure(payload: JsValue)
      modifies this
      ensures !isLoading && error == payload
      ensures currentUser == old(currentUser) && token == old(token) && cookies == old(cookies)
    {
      isLoading := false;
      error := payload;
    }
  }

  /** Reloading after a sign-in restores the user (as JSON keeps it) and the
      token; an empty token is not restored, since it is falsy in both
      places the initial state looks. */
  lemma ReloadAfterSignIn(jar: Jar, json: Json, user: Obj, token: string)
    requires RoundTrips(json)
    ensures InitialState(SignInCookies(jar, json, user, token), json)
            == Ok(State(Some(JsonView(WithToken(user, token))), if token != "" then Str(token) else Null, false, Null))
  {
    var u := WithToken(user, token);
    var after := SignInCookies(jar, json, user, token);
    assert json.stringify(u) != "" && json.parse(json.stringify(u)) == Some(JsonView(u));
    assert Prop(JsonView(u), "token") == Str(token);
    assert CookieGet(after, TokenCookie) == Some(token);
  }

  /** Reloading after a sign-out or a deletion finds no session at all. */
  lemma ReloadAfterSignOut(jar: Jar, json: Json)
    ensures InitialState(SignOutCookies(jar), json) == Ok(State(None, Null, false, Null))
  {
    assert CurrentUserCookie !in SignOutCookies(jar) && TokenCookie !in SignOutCookies(jar);
  }

  /** Reloading after an update restores the merged user; the token comes
      from the merged user when it has a truthy one, so a new token in the
      payload wins there although the in-memory `token` kept the old one. */
  lemma ReloadAfterUpdate(jar: Jar, json: Json, current: Option<Obj>, payload: Obj)
    requires RoundTrips(json)
    ensures var u := Merged(current, payload);
            var after := jar[CurrentUserCookie := Cookie(json.stringify(u), Some(ExpiresDays))];
            InitialState(after, json) == Ok(State(Some(JsonView(u)), RestoredToken(jar, Some(u)), false, Null))
  {
    var u := Merged(current, payload);
    var after := jar[CurrentUserCookie := Cookie(json.stringify(u), Some(ExpiresDays))];
    assert json.stringify(u) != "" && json.parse(json.stringify(u)) == Some(JsonView(u));
    assert CookieGet(after, TokenCookie) == CookieGet(jar, TokenCookie);
  }

  /** After signing in with token "a" and an update whose payload carries
      token "b", the slice still holds "a" while a reload would hold "b". */
  lemma UpdatedTokenOnlyInCookie(jar: Jar, json: Json, user: Obj)
    requires RoundTrips(json)
    ensures var u := Merged(Some(WithToken(user, "a")), map["token" := Str("b")]);
            var after := SignInCookies(jar, json, user, "a")[CurrentUserCookie := Cookie(json.stringify(u), Some(ExpiresDays))];
            InitialState(after, json).Ok? && InitialState(after, json).value.token == Str("b")
  {
    var u := Merged(Some(WithToken(user, "a")), map["token" := Str("b")]);
    assert Prop(map["token" := Str("b")], "token") == Str("b");
    ReloadAfterUpdate(SignInCookies(jar, json, user, "a"), json, Some(WithToken(user, "a")), map["token" := Str("b")]);
    assert Prop(JsonView(u), "token") == Str("b");
  }

  /** A `token` cookie that outlives the `currentUser` cookie gives a
      session with a token and no user. */
  lemma PartialSessionOnLoad(json: Json, t: string)
    requires t != ""
    ensures InitialState(map[TokenCookie := Cookie(t, Some(ExpiresDays))], json) == Ok(State(None, Str(t), false, Null))
  {
    var jar := map[TokenCookie := Cookie(t, Some(ExpiresDays))];
    assert CurrentUserCookie !in jar;
  }
}
